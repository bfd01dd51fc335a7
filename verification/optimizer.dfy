/** The whole optimizer run: financing, forced pre-purchase, slot generation,
    efficiency sort, branch-and-bound search, and the merge of the search's
    units into the final portfolio with its totals. */
module Optimizer {
  import opened Catalog
  import opened Items
  import opened Sorting
  import opened Bound
  import opened Knapsack
  import opened Financing
  import opened Preallocation

  /** The process-wide settings: the catalog, the per-project unit cap and the
      annual discount rate. */
  datatype Config = Config(catalog: seq<Project>, maxUnits: int, discountRate: real)

  /** The settings the application ships with. */
  function Shipped(): (cfg: Config)
    ensures cfg.catalog == Projects && DistinctIds(cfg.catalog) && AscendingIds(cfg.catalog)
    ensures forall p :: p in cfg.catalog ==> p.npv >= 0
    ensures cfg.maxUnits == 3 && ValidDiscountRate(cfg.discountRate)
  {
    ShippedIds();
    ShippedCostsAndValuesPositive();
    Config(Projects, MaxUnitsPerProject, DiscountRate)
  }

  /** What the user chooses: the budget in billions of VND, the loan-to-value
      ratio, the annual loan rate, the loan term in years and a constraint per
      project id. */
  datatype Inputs = Inputs(budgetTotalBillions: int, ltvRatio: real, loanRateAnnual: real,
                           loanPeriodYears: nat, constraints: map<int, Constraint>)

  /** A catalog project together with the number of units held. */
  datatype Holding = Holding(project: Project, units: int)

  /** The optimizer's answer. */
  datatype Result = Result(portfolio: seq<Holding>, totalInvestmentCost: int, operationalProfit: int,
                           netFinancingValue: real, grandTotalNPV: real, loanAmount: real,
                           budgetLimit: int)

  /** The budget in VND. */
  function BudgetTotal(inp: Inputs): int {
    inp.budgetTotalBillions * 1_000_000_000
  }

  /** One more unit of project `id`. */
  function Bump(units: map<int, int>, id: int): (r: map<int, int>)
    ensures UnitsOf(r, id) == UnitsOf(units, id) + 1
    ensures forall other :: other != id ==> UnitsOf(r, other) == UnitsOf(units, other)
  {
    units[id := UnitsOf(units, id) + 1]
  }

  /** Adds one unit of the project of every selected slot. */
  function MergeSelection(units: map<int, int>, items: seq<Slot>, sel: seq<int>): map<int, int>
    requires InRange(sel, 0, |items|)
    decreases |sel|
  {
    if sel == [] then units
    else MergeSelection(Bump(units, items[sel[0]].projectId), items, sel[1..])
  }

  /** The catalog entries holding at least one unit, in catalog order, each
      with its number of units. */
  function Holdings(catalog: seq<Project>, units: map<int, int>): seq<Holding> {
    if catalog == [] then []
    else
      var p := catalog[|catalog| - 1];
      var before := Holdings(catalog[..|catalog| - 1], units);
      if UnitsOf(units, p.id) > 0 then before + [Holding(p, UnitsOf(units, p.id))] else before
  }

  /** The holdings are exactly the catalog projects holding units, each with
      its number of units. */
  lemma {:induction false} HoldingsMembers(catalog: seq<Project>, units: map<int, int>)
    ensures forall h :: h in Holdings(catalog, units) <==>
              h.project in catalog && h.units == UnitsOf(units, h.project.id) && h.units > 0
  {
    if catalog != [] {
      var p := catalog[|catalog| - 1];
      HoldingsMembers(catalog[..|catalog| - 1], units);
      assert catalog == catalog[..|catalog| - 1] + [p];
    }
  }

  /** Cost of the holdings: units times cost, summed. */
  function TotalCost(hs: seq<Holding>): int {
    if hs == [] then 0
    else TotalCost(hs[..|hs| - 1]) + hs[|hs| - 1].units * hs[|hs| - 1].project.cost
  }

  /** NPV of the holdings: units times NPV, summed. */
  function TotalNpv(hs: seq<Holding>): int {
    if hs == [] then 0
    else TotalNpv(hs[..|hs| - 1]) + hs[|hs| - 1].units * hs[|hs| - 1].project.npv
  }

  /** The forced pre-purchase for these inputs. */
  function PreStage(cfg: Config, inp: Inputs): Baseline {
    PrePurchase(cfg.catalog, inp.constraints, BudgetTotal(inp))
  }

  /** The sorted slots the search runs on. */
  function SlotStage(cfg: Config, inp: Inputs): seq<Slot> {
    SortByRatio(BuildSlots(cfg.catalog, inp.constraints, PreStage(cfg, inp).units, cfg.maxUnits))
  }

  /** The search's answer on the budget left after the forced purchases. */
  function SearchStage(cfg: Config, inp: Inputs, cutoff: Cutoff): Incumbent {
    Search(SlotStage(cfg, inp), PreStage(cfg, inp).budget, cutoff)
  }

  /** The units of every project once the search's slots are merged in. */
  function FinalUnits(cfg: Config, inp: Inputs, cutoff: Cutoff): map<int, int> {
    var items := SlotStage(cfg, inp);
    MergeSelection(PreStage(cfg, inp).units, items, SearchStage(cfg, inp, cutoff).selection)
  }

  /** The whole run. `cutoff` chooses the bound's give-up rule: `AtBudget` as
      the source has it, `OverBudget` as evidently intended. The loan and its
      value depend only on the budget and the loan inputs; the portfolio lists
      every catalog project holding units; the budget limit is the full
      budget; and the grand total adds the financing value to the
      operational profit. */
  function CalculatePortfolio(cfg: Config, inp: Inputs, cutoff: Cutoff): (r: Result)
    requires ValidDiscountRate(cfg.discountRate)
    ensures r.budgetLimit == BudgetTotal(inp)
    ensures r.loanAmount == LoanAmount(BudgetTotal(inp), inp.ltvRatio)
    ensures r.netFinancingValue
            == NetFinancingValue(r.loanAmount, inp.loanRateAnnual, inp.loanPeriodYears, cfg.discountRate)
    ensures r.grandTotalNPV == r.operationalProfit as real + r.netFinancingValue
  {
    var budgetTotal := BudgetTotal(inp);
    var loan := LoanAmount(budgetTotal, inp.ltvRatio);
    var nfv := NetFinancingValue(loan, inp.loanRateAnnual, inp.loanPeriodYears, cfg.discountRate);
    var portfolio := Holdings(cfg.catalog, FinalUnits(cfg, inp, cutoff));
    var cost := TotalCost(portfolio);
    var profit := TotalNpv(portfolio);
    Result(portfolio, cost, profit, nfv, profit as real + nfv, loan, budgetTotal)
  }

  /** The portfolio lists exactly the catalog projects that end with units,
      each with its final number of units. */
  lemma PortfolioMembers(cfg: Config, inp: Inputs, cutoff: Cutoff)
    requires ValidDiscountRate(cfg.discountRate)
    ensures forall h :: h in CalculatePortfolio(cfg, inp, cutoff).portfolio <==>
              h.project in cfg.catalog && h.units > 0
              && h.units == UnitsOf(FinalUnits(cfg, inp, cutoff), h.project.id)
  {
    HoldingsMembers(cfg.catalog, FinalUnits(cfg, inp, cutoff));
  }

  /** Holdings listed in strictly ascending project id. */
  predicate InIdOrder(hs: seq<Holding>) {
    forall i, j :: 0 <= i < j < |hs| ==> hs[i].project.id < hs[j].project.id
  }

  /** Over a catalog listed in ascending id order, the holdings are listed
      in ascending id order too: catalog order is kept. */
  lemma {:induction false} HoldingsInCatalogOrder(catalog: seq<Project>, units: map<int, int>)
    requires AscendingIds(catalog)
    ensures InIdOrder(Holdings(catalog, units))
  {
    if catalog != [] {
      var prefix := catalog[..|catalog| - 1];
      var last := catalog[|catalog| - 1];
      var before := Holdings(prefix, units);
      assert AscendingIds(prefix);
      HoldingsInCatalogOrder(prefix, units);
      HoldingsMembers(prefix, units);
      forall i | 0 <= i < |before|
        ensures before[i].project.id < last.id
      {
        assert before[i] in before;
        var k :| 0 <= k < |prefix| && prefix[k] == before[i].project;
        assert catalog[k] == prefix[k];
      }
      if UnitsOf(units, last.id) > 0 {
        var hs := before + [Holding(last, UnitsOf(units, last.id))];
        assert Holdings(catalog, units) == hs;
        forall i, j | 0 <= i < j < |hs|
          ensures hs[i].project.id < hs[j].project.id
        {
          assert hs[i] == before[i];
          if j < |before| {
            assert hs[j] == before[j];
            assert before[i].project.id < before[j].project.id;
          } else {
            assert hs[j].project == last;
            assert before[i].project.id < last.id;
          }
        }
      }
    }
  }

  // ---------------------------------------------------------------- units

  /** Merging a selection adds, for every project, the number of selected
      slots of that project. */
  lemma {:induction false} MergeUnits(units: map<int, int>, items: seq<Slot>, sel: seq<int>, id: int)
    requires InRange(sel, 0, |items|)
    ensures UnitsOf(MergeSelection(units, items, sel), id) == UnitsOf(units, id) + CountSelected(items, sel, id)
    decreases |sel|
  {
    if sel != [] {
      MergeUnits(Bump(units, items[sel[0]].projectId), items, sel[1..], id);
    }
  }

  /** Units of a project after the run: what the forced pre-purchase bought
      plus what the search selected. */
  lemma FinalUnitsSplit(cfg: Config, inp: Inputs, cutoff: Cutoff, id: int)
    ensures UnitsOf(FinalUnits(cfg, inp, cutoff), id)
            == UnitsOf(PreStage(cfg, inp).units, id)
               + CountSelected(SlotStage(cfg, inp), SearchStage(cfg, inp, cutoff).selection, id)
  {
    MergeUnits(PreStage(cfg, inp).units, SlotStage(cfg, inp), SearchStage(cfg, inp, cutoff).selection, id);
  }

  /** The units the run gives a catalog project never exceed what it bought
      up front plus its allowance of slots. */
  lemma UnitsWithinAllowance(cfg: Config, inp: Inputs, cutoff: Cutoff, i: int)
    requires DistinctIds(cfg.catalog) && 0 <= i < |cfg.catalog|
    ensures var p := cfg.catalog[i];
            var pre := PreStage(cfg, inp);
            UnitsOf(pre.units, p.id) <= UnitsOf(FinalUnits(cfg, inp, cutoff), p.id)
            <= UnitsOf(pre.units, p.id) + Allowance(p, inp.constraints, pre.units, cfg.maxUnits)
  {
    var p := cfg.catalog[i];
    var pre := PreStage(cfg, inp);
    var slots := BuildSlots(cfg.catalog, inp.constraints, pre.units, cfg.maxUnits);
    var items := SlotStage(cfg, inp);
    var sel := SearchStage(cfg, inp, cutoff).selection;
    FinalUnitsSplit(cfg, inp, cutoff, p.id);
    assert items[0..] == items;
    SelectedAtMostAvailable(items, sel, 0, p.id);
    SortCount(slots, p.id);
    SlotCounts(cfg.catalog, inp.constraints, pre.units, cfg.maxUnits, p.id);
    assert FirstIndexOf(cfg.catalog, p.id) == i;
  }

  /** The cap: with a cap of at least one, no project ends with more units
      than the cap, an excluded project ends with none, and an id outside the
      catalog ends with none. */
  lemma UnitCap(cfg: Config, inp: Inputs, cutoff: Cutoff, id: int)
    requires DistinctIds(cfg.catalog) && cfg.maxUnits >= 1
    ensures 0 <= UnitsOf(FinalUnits(cfg, inp, cutoff), id) <= cfg.maxUnits
    ensures ConstraintOf(inp.constraints, id) == Exclude ==> UnitsOf(FinalUnits(cfg, inp, cutoff), id) == 0
    ensures id !in IdsOf(cfg.catalog) ==> UnitsOf(FinalUnits(cfg, inp, cutoff), id) == 0
  {
    var pre := PreStage(cfg, inp);
    var items := SlotStage(cfg, inp);
    var slots := BuildSlots(cfg.catalog, inp.constraints, pre.units, cfg.maxUnits);
    var sel := SearchStage(cfg, inp, cutoff).selection;
    FinalUnitsSplit(cfg, inp, cutoff, id);
    assert items[0..] == items;
    SelectedAtMostAvailable(items, sel, 0, id);
    SortCount(slots, id);
    SlotCounts(cfg.catalog, inp.constraints, pre.units, cfg.maxUnits, id);
    if id in IdsOf(cfg.catalog) {
      Listed(cfg.catalog, id);
    }
  }

  // ---------------------------------------------------------------- totals

  /** What project `p` adds to the cost and the NPV with these units. */
  function CostShare(p: Project, units: map<int, int>): int {
    if UnitsOf(units, p.id) > 0 then UnitsOf(units, p.id) * p.cost else 0
  }

  function NpvShare(p: Project, units: map<int, int>): int {
    if UnitsOf(units, p.id) > 0 then UnitsOf(units, p.id) * p.npv else 0
  }

  /** The totals of the holdings grow project by project in catalog order. */
  lemma HoldingsTotalsStep(catalog: seq<Project>, units: map<int, int>)
    requires catalog != []
    ensures var prefix := catalog[..|catalog| - 1];
            var last := catalog[|catalog| - 1];
            && TotalCost(Holdings(catalog, units)) == TotalCost(Holdings(prefix, units)) + CostShare(last, units)
            && TotalNpv(Holdings(catalog, units)) == TotalNpv(Holdings(prefix, units)) + NpvShare(last, units)
  {
    var hs := Holdings(catalog[..|catalog| - 1], units);
    var last := catalog[|catalog| - 1];
    if UnitsOf(units, last.id) > 0 {
      assert (hs + [Holding(last, UnitsOf(units, last.id))])[..|hs|] == hs;
    }
  }

  /** The holdings depend only on the units of the catalog's own projects. */
  lemma {:induction false} HoldingsFrame(catalog: seq<Project>, units: map<int, int>, units': map<int, int>)
    requires forall i :: 0 <= i < |catalog| ==> UnitsOf(units, catalog[i].id) == UnitsOf(units', catalog[i].id)
    ensures Holdings(catalog, units) == Holdings(catalog, units')
  {
    if catalog != [] {
      HoldingsFrame(catalog[..|catalog| - 1], units, units');
    }
  }

  lemma OneMore(k: int, c: int)
    ensures (k + 1) * c == k * c + c
  {
  }

  /** One more unit of a project with no negative units adds its cost and NPV
      to its shares. */
  lemma BumpShares(p: Project, units: map<int, int>)
    requires UnitsOf(units, p.id) >= 0
    ensures CostShare(p, Bump(units, p.id)) == CostShare(p, units) + p.cost
    ensures NpvShare(p, Bump(units, p.id)) == NpvShare(p, units) + p.npv
  {
    OneMore(UnitsOf(units, p.id), p.cost);
    OneMore(UnitsOf(units, p.id), p.npv);
  }

  /** One more unit of catalog project `i` adds its cost and NPV to the totals. */
  lemma {:induction false} BumpTotals(catalog: seq<Project>, units: map<int, int>, i: int)
    requires DistinctIds(catalog) && 0 <= i < |catalog| && UnitsOf(units, catalog[i].id) >= 0
    ensures TotalCost(Holdings(catalog, Bump(units, catalog[i].id)))
            == TotalCost(Holdings(catalog, units)) + catalog[i].cost
    ensures TotalNpv(Holdings(catalog, Bump(units, catalog[i].id)))
            == TotalNpv(Holdings(catalog, units)) + catalog[i].npv
  {
    var n := |catalog|;
    var prefix := catalog[..n - 1];
    var last := catalog[n - 1];
    var id := catalog[i].id;
    var bumped := Bump(units, id);
    HoldingsTotalsStep(catalog, units);
    HoldingsTotalsStep(catalog, bumped);
    if i == n - 1 {
      assert forall k :: 0 <= k < |prefix| ==> UnitsOf(units, prefix[k].id) == UnitsOf(bumped, prefix[k].id) by {
        forall k | 0 <= k < |prefix|
          ensures UnitsOf(units, prefix[k].id) == UnitsOf(bumped, prefix[k].id)
        {
          assert prefix[k] == catalog[k];
        }
      }
      HoldingsFrame(prefix, units, bumped);
      BumpShares(last, units);
    } else {
      assert DistinctIds(prefix);
      assert prefix[i] == catalog[i];
      BumpTotals(prefix, units, i);
      assert last.id != id;
    }
  }

  /** Every slot was made from an entry of the catalog. */
  predicate SlotsFromCatalog(catalog: seq<Project>, items: seq<Slot>) {
    forall k :: 0 <= k < |items| ==> SlotOf(catalog, items[k])
  }

  /** Merging a selection of slots made from the catalog adds the selection's
      weight to the portfolio's cost and its value to the portfolio's NPV. */
  lemma {:induction false} MergeTotals(catalog: seq<Project>, units: map<int, int>, items: seq<Slot>, sel: seq<int>)
    requires DistinctIds(catalog) && SlotsFromCatalog(catalog, items) && InRange(sel, 0, |items|)
    requires forall i :: 0 <= i < |catalog| ==> UnitsOf(units, catalog[i].id) >= 0
    ensures TotalCost(Holdings(catalog, MergeSelection(units, items, sel)))
            == TotalCost(Holdings(catalog, units)) + Weight(items, sel)
    ensures TotalNpv(Holdings(catalog, MergeSelection(units, items, sel)))
            == TotalNpv(Holdings(catalog, units)) + Value(items, sel)
    decreases |sel|
  {
    if sel != [] {
      var s := items[sel[0]];
      assert SlotOf(catalog, s);
      var p :| p in catalog && p.cost > 0 && s == Slot(p.id, p.cost, p.npv, p.npv as real / p.cost as real);
      var i :| 0 <= i < |catalog| && catalog[i] == p;
      BumpTotals(catalog, units, i);
      MergeTotals(catalog, Bump(units, p.id), items, sel[1..]);
    }
  }

  /** The last project's turn of the forced pre-purchase leaves the holdings
      of the earlier projects alone, and the last project held nothing before
      its turn. */
  lemma PrePurchaseLastTurn(catalog: seq<Project>, constraints: map<int, Constraint>, budget: int)
    requires DistinctIds(catalog) && catalog != []
    ensures var prefix := catalog[..|catalog| - 1];
            var before := PrePurchase(prefix, constraints, budget);
            && Holdings(prefix, PrePurchase(catalog, constraints, budget).units) == Holdings(prefix, before.units)
            && UnitsOf(before.units, catalog[|catalog| - 1].id) == 0
  {
    var n := |catalog|;
    var prefix := catalog[..n - 1];
    var before := PrePurchase(prefix, constraints, budget);
    var after := PrePurchase(catalog, constraints, budget);
    IdNotInEarlierPrefix(catalog, n - 1);
    forall k | 0 <= k < |prefix|
      ensures UnitsOf(before.units, prefix[k].id) == UnitsOf(after.units, prefix[k].id)
    {
      assert prefix[k] == catalog[k];
    }
    HoldingsFrame(prefix, before.units, after.units);
  }

  /** What the forced pre-purchase reports as bought is exactly the cost and
      NPV of the units it records. */
  lemma {:induction false} PrePurchaseTotals(catalog: seq<Project>, constraints: map<int, Constraint>, budget: int)
    requires DistinctIds(catalog)
    ensures var pre := PrePurchase(catalog, constraints, budget);
            TotalCost(Holdings(catalog, pre.units)) == pre.cost
            && TotalNpv(Holdings(catalog, pre.units)) == pre.npv
  {
    if catalog != [] {
      var prefix := catalog[..|catalog| - 1];
      assert DistinctIds(prefix);
      PrePurchaseTotals(prefix, constraints, budget);
      HoldingsTotalsStep(catalog, PrePurchase(catalog, constraints, budget).units);
      PrePurchaseLastTurn(catalog, constraints, budget);
    }
  }

  /** The search's slots all come from the catalog. */
  lemma SlotStageFromCatalog(cfg: Config, inp: Inputs)
    ensures SlotsFromCatalog(cfg.catalog, SlotStage(cfg, inp))
  {
    var slots := BuildSlots(cfg.catalog, inp.constraints, PreStage(cfg, inp).units, cfg.maxUnits);
    SlotsComeFromCatalog(cfg.catalog, inp.constraints, PreStage(cfg, inp).units, cfg.maxUnits);
    SortKeepsSlots(slots);
  }

  /** The reported totals: the investment is the forced purchases' cost plus
      the weight of the search's selection, and the operational profit is the
      forced purchases' NPV plus the search's best value. */
  lemma PortfolioTotals(cfg: Config, inp: Inputs, cutoff: Cutoff)
    requires ValidDiscountRate(cfg.discountRate) && DistinctIds(cfg.catalog)
    ensures var r := CalculatePortfolio(cfg, inp, cutoff);
            var pre := PreStage(cfg, inp);
            var best := SearchStage(cfg, inp, cutoff);
            && r.totalInvestmentCost == pre.cost + Weight(SlotStage(cfg, inp), best.selection)
            && r.operationalProfit == pre.npv + best.value
  {
    var pre := PreStage(cfg, inp);
    SlotStageFromCatalog(cfg, inp);
    PrePurchaseTotals(cfg.catalog, inp.constraints, BudgetTotal(inp));
    MergeTotals(cfg.catalog, pre.units, SlotStage(cfg, inp), SearchStage(cfg, inp, cutoff).selection);
  }

  /** The totals go by catalog entry and the units by id, so an id listed
      twice has its units counted twice: three units at 10 each are reported
      as costing 60. This is why the totals are stated for distinct ids. */
  lemma DuplicateIdCountedTwice()
    ensures TotalCost(Holdings([Project(1, 10, 5), Project(1, 10, 5)], map[1 := 3])) == 60
  {
    var p := Project(1, 10, 5);
    assert [p, p][..1] == [p] && [p][..0] == [];
    var h := Holding(p, 3);
    var units := map[1 := 3];
    assert UnitsOf(units, 1) == 3;
    assert Holdings([p], units) == Holdings([], units) + [h] == [h];
    assert Holdings([p, p], units) == Holdings([p], units) + [h] == [h, h];
    assert [h, h][..1] == [h] && [h][..0] == [];
  }

  /** With a nonnegative budget the portfolio never costs more than the
      budget, whichever give-up rule the bound uses. */
  lemma WithinBudget(cfg: Config, inp: Inputs, cutoff: Cutoff)
    requires ValidDiscountRate(cfg.discountRate) && DistinctIds(cfg.catalog)
    requires inp.budgetTotalBillions >= 0
    ensures CalculatePortfolio(cfg, inp, cutoff).totalInvestmentCost <= BudgetTotal(inp)
  {
    PortfolioTotals(cfg, inp, cutoff);
  }

  // ---------------------------------------------------------------- guarantees

  /** A forced project whose cost fits the budget left after the projects
      before it is in the portfolio with at least one unit. */
  lemma ForcedProjectHeld(cfg: Config, inp: Inputs, cutoff: Cutoff, i: int)
    requires ValidDiscountRate(cfg.discountRate) && DistinctIds(cfg.catalog) && 0 <= i < |cfg.catalog|
    requires ConstraintOf(inp.constraints, cfg.catalog[i].id) == Force
    requires cfg.catalog[i].cost <= PrePurchase(cfg.catalog[..i], inp.constraints, BudgetTotal(inp)).budget
    ensures var units := UnitsOf(FinalUnits(cfg, inp, cutoff), cfg.catalog[i].id);
            units >= 1 && Holding(cfg.catalog[i], units) in CalculatePortfolio(cfg, inp, cutoff).portfolio
  {
    PrePurchaseTurn(cfg.catalog, inp.constraints, BudgetTotal(inp), i);
    UnitsWithinAllowance(cfg, inp, cutoff, i);
    PortfolioMembers(cfg, inp, cutoff);
    assert cfg.catalog[i] in cfg.catalog;
  }

  /** With nonnegative NPVs the search's slots satisfy what the bound needs. */
  lemma SlotStageReady(cfg: Config, inp: Inputs)
    requires forall p :: p in cfg.catalog ==> p.npv >= 0
    ensures AllWellFormed(SlotStage(cfg, inp)) && SortedByRatio(SlotStage(cfg, inp))
  {
    var slots := BuildSlots(cfg.catalog, inp.constraints, PreStage(cfg, inp).units, cfg.maxUnits);
    var items := SlotStage(cfg, inp);
    SlotsWellFormed(cfg.catalog, inp.constraints, PreStage(cfg, inp).units, cfg.maxUnits);
    SortKeepsSlots(slots);
    forall k | 0 <= k < |items|
      ensures WellFormedAt(items, k)
    {
      var j :| 0 <= j < |slots| && slots[j] == items[k];
      assert WellFormedAt(slots, j);
    }
  }

  /** With the corrected bound, no way of spending the budget left after the
      forced purchases on the available slots earns more operational profit
      than the portfolio returned. */
  lemma PortfolioOptimal(cfg: Config, inp: Inputs)
    requires ValidDiscountRate(cfg.discountRate) && DistinctIds(cfg.catalog)
    requires forall p :: p in cfg.catalog ==> p.npv >= 0
    ensures var items := SlotStage(cfg, inp);
            forall sel :: IsSelection(sel, 0, |items|) && Weight(items, sel) <= PreStage(cfg, inp).budget ==>
              PreStage(cfg, inp).npv + Value(items, sel) <= CalculatePortfolio(cfg, inp, OverBudget).operationalProfit
  {
    SlotStageReady(cfg, inp);
    SearchOptimal(SlotStage(cfg, inp), PreStage(cfg, inp).budget);
    PortfolioTotals(cfg, inp, OverBudget);
  }

  /** As written, the portfolio is only guaranteed to beat the ways of
      spending that leave some of the remaining budget unspent. */
  lemma PortfolioAsWrittenNearOptimal(cfg: Config, inp: Inputs)
    requires ValidDiscountRate(cfg.discountRate) && DistinctIds(cfg.catalog)
    requires forall p :: p in cfg.catalog ==> p.npv >= 0
    ensures var items := SlotStage(cfg, inp);
            forall sel :: IsSelection(sel, 0, |items|) && Weight(items, sel) < PreStage(cfg, inp).budget ==>
              PreStage(cfg, inp).npv + Value(items, sel) <= CalculatePortfolio(cfg, inp, AtBudget).operationalProfit
  {
    SlotStageReady(cfg, inp);
    SearchAsWrittenNearOptimal(SlotStage(cfg, inp), PreStage(cfg, inp).budget);
    PortfolioTotals(cfg, inp, AtBudget);
  }

  /** A catalog of two projects: A costs 100 billion and earns 50 billion, B
      costs 60 billion and earns 45 billion, so B is the more efficient. */
  function TwoProjects(): (cfg: Config)
    ensures DistinctIds(cfg.catalog) && ValidDiscountRate(cfg.discountRate)
  {
    Config([Project(1, 100_000_000_000, 50_000_000_000), Project(2, 60_000_000_000, 45_000_000_000)],
           1, DiscountRate)
  }

  /** A budget of 100 billion, no loan, no constraints. */
  function HundredBillions(): Inputs {
    Inputs(100, 0.0, 0.0, 0, map[])
  }

  /** Nothing is forced, so the search gets the whole budget. */
  lemma TwoProjectsPre()
    ensures PreStage(TwoProjects(), HundredBillions()) == Baseline(100_000_000_000, map[], 0, 0)
  {
    var cat := TwoProjects().catalog;
    assert cat[..1] == [cat[0]] && [cat[0]][..0] == [];
    assert PrePurchase([cat[0]], map[], 100_000_000_000) == Baseline(100_000_000_000, map[], 0, 0);
  }

  /** Without constraints, held units or a cap above one, each of two
      projects with a positive cost gets a single slot. */
  lemma OneSlotEach(a: Project, b: Project, ra: real, rb: real)
    requires a.cost > 0 && ra * a.cost as real == a.npv as real
    requires b.cost > 0 && rb * b.cost as real == b.npv as real
    ensures BuildSlots([a, b], map[], map[], 1) == [Slot(a.id, a.cost, a.npv, ra), Slot(b.id, b.cost, b.npv, rb)]
  {
    assert a.npv as real / a.cost as real == ra;
    assert b.npv as real / b.cost as real == rb;
    var sa, sb := Slot(a.id, a.cost, a.npv, ra), Slot(b.id, b.cost, b.npv, rb);
    var noConstraints: map<int, Constraint> := map[];
    var noUnits: map<int, int> := map[];
    assert ConstraintOf(noConstraints, a.id) == Auto && ConstraintOf(noConstraints, b.id) == Auto;
    assert UnitsOf(noUnits, a.id) == 0 && UnitsOf(noUnits, b.id) == 0;
    assert Repeat(sa, 1) == [sa] + Repeat(sa, 0);
    assert Repeat(sb, 1) == [sb] + Repeat(sb, 0);
    assert SlotsFor(a, noConstraints, noUnits, 1) == [sa];
    assert SlotsFor(b, noConstraints, noUnits, 1) == [sb];
    assert [a, b][1..] == [b] && [b][1..] == [];
    assert BuildSlots([b], noConstraints, noUnits, 1) == [sb];
  }

  lemma ExampleRatios()
    ensures 0.5 * (100_000_000_000 as real) == 50_000_000_000 as real
    ensures 0.75 * (60_000_000_000 as real) == 45_000_000_000 as real
    ensures 0.05 * (200_000_000_000 as real) == 10_000_000_000 as real
  {
  }

  /** One slot per project, in catalog order. */
  lemma TwoProjectsBuild()
    ensures BuildSlots(TwoProjects().catalog, map[], map[], 1)
            == [Slot(1, 100_000_000_000, 50_000_000_000, 0.5), Slot(2, 60_000_000_000, 45_000_000_000, 0.75)]
  {
    var a, b := Project(1, 100_000_000_000, 50_000_000_000), Project(2, 60_000_000_000, 45_000_000_000);
    ExampleRatios();
    OneSlotEach(a, b, 0.5, 0.75);
  }

  /** The sort puts B's slot first. */
  lemma TwoProjectsSort()
    ensures SortByRatio([Slot(1, 100_000_000_000, 50_000_000_000, 0.5), Slot(2, 60_000_000_000, 45_000_000_000, 0.75)])
            == TwoSlots()
  {
    var sa := Slot(1, 100_000_000_000, 50_000_000_000, 0.5);
    var sb := Slot(2, 60_000_000_000, 45_000_000_000, 0.75);
    assert [sb][1..] == [] && [sa, sb][1..] == [sb];
    assert SortByRatio([]) == [];
    assert Insert(sb, []) == [sb];
    assert SortByRatio([sb]) == [sb];
    assert Insert(sa, []) == [sa];
    assert Insert(sa, [sb]) == [sb, sa];
  }

  lemma TwoProjectsSlots()
    ensures SlotStage(TwoProjects(), HundredBillions()) == TwoSlots()
  {
    TwoProjectsPre();
    TwoProjectsBuild();
    TwoProjectsSort();
  }

  /** The two slots in efficiency order. */
  function TwoSlots(): seq<Slot> {
    [Slot(2, 60_000_000_000, 45_000_000_000, 0.75), Slot(1, 100_000_000_000, 50_000_000_000, 0.5)]
  }

  /** Taking B first: A no longer fits, so B alone is recorded. */
  lemma TwoSlotsTakeB(cutoff: Cutoff)
    ensures Include(TwoSlots(), 100_000_000_000, cutoff, 0, 0, 0, [], Incumbent(0, []))
            == Incumbent(45_000_000_000, [0])
  {
    var items := TwoSlots();
    var none := Incumbent(0, []);
    var withB := Incumbent(45_000_000_000, [0]);
    assert Greedy(items, 1, 40_000_000_000) == 20_000_000_000.0;
    assert Solve(items, 100_000_000_000, cutoff, 2, 60_000_000_000, 45_000_000_000, [0], none) == withB;
    assert Solve(items, 100_000_000_000, cutoff, 1, 60_000_000_000, 45_000_000_000, [0], none) == withB;
  }

  /** Leaving B out: A alone fills the budget and, being a leaf, replaces B. */
  lemma TwoSlotsTakeA(cutoff: Cutoff)
    ensures Solve(TwoSlots(), 100_000_000_000, cutoff, 1, 0, 0, [], Incumbent(45_000_000_000, [0]))
            == Incumbent(50_000_000_000, [1])
  {
    var items := TwoSlots();
    var withB := Incumbent(45_000_000_000, [0]);
    var withA := Incumbent(50_000_000_000, [1]);
    assert Greedy(items, 2, 0) == 0.0;
    assert Greedy(items, 1, 100_000_000_000) == 50_000_000_000.0;
    assert Solve(items, 100_000_000_000, cutoff, 2, 100_000_000_000, 50_000_000_000, [1], withB) == withA;
    assert Include(items, 100_000_000_000, cutoff, 1, 0, 0, [], withB) == withA;
  }

  /** On those slots the search, under either give-up rule, first records B
      and then replaces it with A. */
  lemma TwoSlotsSearch(cutoff: Cutoff)
    ensures Search(TwoSlots(), 100_000_000_000, cutoff) == Incumbent(50_000_000_000, [1])
  {
    TwoSlotsTakeB(cutoff);
    TwoSlotsTakeA(cutoff);
    var items := TwoSlots();
    assert Greedy(items, 0, 100_000_000_000) == 65_000_000_000.0 by {
      assert Greedy(items, 1, 40_000_000_000) == 20_000_000_000.0;
    }
  }

  lemma TwoProjectsSearch(cutoff: Cutoff)
    ensures SearchStage(TwoProjects(), HundredBillions(), cutoff) == Incumbent(50_000_000_000, [1])
  {
    TwoProjectsPre();
    TwoProjectsSlots();
    TwoSlotsSearch(cutoff);
  }

  /** After the merge only A holds a unit. */
  lemma TwoProjectsUnits(cutoff: Cutoff)
    ensures FinalUnits(TwoProjects(), HundredBillions(), cutoff) == map[1 := 1]
  {
    TwoProjectsPre();
    TwoProjectsSlots();
    TwoProjectsSearch(cutoff);
    TwoProjectsMerge();
  }

  lemma TwoProjectsMerge()
    ensures MergeSelection(map[], TwoSlots(), [1]) == map[1 := 1]
  {
    var empty: map<int, int> := map[];
    assert UnitsOf(empty, 1) == 0;
    assert [1][1..] == [];
  }

  /** The portfolio lists A once. */
  lemma TwoProjectsHoldings()
    ensures Holdings(TwoProjects().catalog, map[1 := 1]) == [Holding(TwoProjects().catalog[0], 1)]
  {
    var cat := TwoProjects().catalog;
    assert cat[..1] == [cat[0]] && [cat[0]][..0] == [];
    assert Holdings([cat[0]], map[1 := 1]) == [Holding(cat[0], 1)];
  }

  /** With one unit per project the more efficient B alone (45 billion) loses
      to A alone (50 billion), and both give-up rules find A: the node holding
      A is a leaf, judged before any bound. */
  lemma EfficiencyIsNotGreed(cutoff: Cutoff)
    ensures var r := CalculatePortfolio(TwoProjects(), HundredBillions(), cutoff);
            && r.portfolio == [Holding(TwoProjects().catalog[0], 1)]
            && r.operationalProfit == 50_000_000_000
            && r.totalInvestmentCost == 100_000_000_000
  {
    TwoProjectsUnits(cutoff);
    TwoProjectsHoldings();
    var hs := [Holding(TwoProjects().catalog[0], 1)];
    assert hs[..0] == [];
    assert TotalCost(hs) == 100_000_000_000 && TotalNpv(hs) == 50_000_000_000;
  }

  // ---------------------------------------------------------------- the full-budget portfolio

  /** A catalog whose first project, A, costs 100 billion and earns 50
      billion, and whose second, B, costs 200 billion and earns 10 billion. */
  function FullBudgetCatalog(): (cfg: Config)
    ensures DistinctIds(cfg.catalog) && ValidDiscountRate(cfg.discountRate)
  {
    Config([Project(1, 100_000_000_000, 50_000_000_000), Project(2, 200_000_000_000, 10_000_000_000)],
           1, DiscountRate)
  }

  lemma FullBudgetPre()
    ensures PreStage(FullBudgetCatalog(), HundredBillions()) == Baseline(100_000_000_000, map[], 0, 0)
  {
    var cat := FullBudgetCatalog().catalog;
    assert cat[..1] == [cat[0]] && [cat[0]][..0] == [];
    assert PrePurchase([cat[0]], map[], 100_000_000_000) == Baseline(100_000_000_000, map[], 0, 0);
  }

  lemma FullBudgetBuild()
    ensures BuildSlots(FullBudgetCatalog().catalog, map[], map[], 1) == FullBudgetItems()
  {
    var a, b := Project(1, 100_000_000_000, 50_000_000_000), Project(2, 200_000_000_000, 10_000_000_000);
    ExampleRatios();
    OneSlotEach(a, b, 0.5, 0.05);
  }

  /** The slots are generated already in efficiency order. */
  lemma FullBudgetSlots()
    ensures SlotStage(FullBudgetCatalog(), HundredBillions()) == FullBudgetItems()
  {
    FullBudgetPre();
    FullBudgetBuild();
    FullBudgetSort();
  }

  lemma FullBudgetSort()
    ensures SortByRatio(FullBudgetItems()) == FullBudgetItems()
  {
    var sa := Slot(1, 100_000_000_000, 50_000_000_000, 0.5);
    var sb := Slot(2, 200_000_000_000, 10_000_000_000, 0.05);
    assert [sb][1..] == [] && [sa, sb][1..] == [sb];
    assert SortByRatio([]) == [];
    assert Insert(sb, []) == [sb];
    assert SortByRatio([sb]) == [sb];
    assert Insert(sa, [sb]) == [sa, sb];
    assert FullBudgetItems() == [sa, sb];
  }

  /** A holding list with no member is empty. */
  lemma {:induction false} NoHoldings(catalog: seq<Project>)
    ensures Holdings(catalog, map[]) == []
  {
    if catalog != [] {
      NoHoldings(catalog[..|catalog| - 1]);
    }
  }

  /** As written, the optimizer returns an empty portfolio for A, B, a cap of
      one unit and a budget of 100 billion, although A alone costs exactly the
      budget and earns 50 billion. */
  lemma AsWrittenEmptyPortfolio()
    ensures var r := CalculatePortfolio(FullBudgetCatalog(), HundredBillions(), AtBudget);
            r.portfolio == [] && r.operationalProfit == 0 && r.totalInvestmentCost == 0
    ensures FullBudgetCatalog().catalog[0].cost == BudgetTotal(HundredBillions())
    ensures FullBudgetCatalog().catalog[0].npv == 50_000_000_000
  {
    var cfg, inp := FullBudgetCatalog(), HundredBillions();
    FullBudgetPre();
    FullBudgetSlots();
    AsWrittenMissesFullBudget();
    assert SearchStage(cfg, inp, AtBudget) == Incumbent(0, []);
    assert FinalUnits(cfg, inp, AtBudget) == map[];
    NoHoldings(cfg.catalog);
  }

  lemma FullBudgetMerge()
    ensures MergeSelection(map[], FullBudgetItems(), [0]) == map[1 := 1]
  {
    var empty: map<int, int> := map[];
    assert UnitsOf(empty, 1) == 0;
    assert [0][1..] == [];
  }

  lemma FullBudgetHoldings()
    ensures Holdings(FullBudgetCatalog().catalog, map[1 := 1]) == [Holding(FullBudgetCatalog().catalog[0], 1)]
  {
    var cat := FullBudgetCatalog().catalog;
    assert cat[..1] == [cat[0]] && [cat[0]][..0] == [];
    assert Holdings([cat[0]], map[1 := 1]) == [Holding(cat[0], 1)];
  }

  /** With the corrected bound the same inputs give the portfolio of A alone. */
  lemma CorrectedFullPortfolio()
    ensures var r := CalculatePortfolio(FullBudgetCatalog(), HundredBillions(), OverBudget);
            && r.portfolio == [Holding(FullBudgetCatalog().catalog[0], 1)]
            && r.operationalProfit == 50_000_000_000
            && r.totalInvestmentCost == 100_000_000_000
  {
    CorrectedFullUnits();
    FullBudgetHoldings();
    FullBudgetTotals();
  }

  /** With the corrected bound, the search takes A's slot and A ends with one unit. */
  lemma CorrectedFullUnits()
    ensures FinalUnits(FullBudgetCatalog(), HundredBillions(), OverBudget) == map[1 := 1]
  {
    var cfg, inp := FullBudgetCatalog(), HundredBillions();
    FullBudgetPre();
    FullBudgetSlots();
    CorrectedTakesFullBudget();
    assert SearchStage(cfg, inp, OverBudget) == Incumbent(50_000_000_000, [0]);
    FullBudgetMerge();
  }

  /** One unit of A costs 100 billion and earns 50 billion. */
  lemma FullBudgetTotals()
    ensures var hs := [Holding(FullBudgetCatalog().catalog[0], 1)];
            TotalCost(hs) == 100_000_000_000 && TotalNpv(hs) == 50_000_000_000
  {
    var hs := [Holding(FullBudgetCatalog().catalog[0], 1)];
    assert hs[..0] == [];
  }

  // ---------------------------------------------------------------- a larger budget can earn less

  /** A forced project F that costs 100 billion and earns 1 billion, listed
      before an unconstrained G that costs 98 billion and earns 1000 billion,
      with a cap of one unit. */
  function CrowdingCatalog(): (cfg: Config)
    ensures DistinctIds(cfg.catalog) && ValidDiscountRate(cfg.discountRate)
  {
    Config([Project(1, 100_000_000_000, 1_000_000_000), Project(2, 98_000_000_000, 1_000_000_000_000)],
           1, DiscountRate)
  }

  /** A budget of `billions` billion, no loan, and F forced. */
  function ForceFirst(billions: int): Inputs {
    Inputs(billions, 0.0, 0.0, 0, map[1 := Force])
  }

  /** G's slot. */
  function CrowdingG(): Slot {
    Slot(2, 98_000_000_000, 1_000_000_000_000, 1_000_000_000_000 as real / 98_000_000_000 as real)
  }

  /** F's slot. */
  function CrowdingF(): Slot {
    Slot(1, 100_000_000_000, 1_000_000_000, 1_000_000_000 as real / 100_000_000_000 as real)
  }

  /** A project that is not excluded, has a positive cost and may gain exactly
      one more unit gets exactly one slot. */
  lemma OneSlotLeft(p: Project, constraints: map<int, Constraint>, units: map<int, int>, maxUnits: int)
    requires ConstraintOf(constraints, p.id) != Exclude && p.cost > 0
    requires maxUnits - UnitsOf(units, p.id) == 1
    ensures SlotsFor(p, constraints, units, maxUnits) == [Slot(p.id, p.cost, p.npv, p.npv as real / p.cost as real)]
  {
    var s := Slot(p.id, p.cost, p.npv, p.npv as real / p.cost as real);
    assert Repeat(s, 1) == [s] + Repeat(s, 0);
  }

  /** The slots of a two-project catalog are those of its first project, then
      those of its second. */
  lemma BuildTwo(a: Project, b: Project, constraints: map<int, Constraint>, units: map<int, int>, maxUnits: int)
    ensures BuildSlots([a, b], constraints, units, maxUnits)
            == SlotsFor(a, constraints, units, maxUnits) + SlotsFor(b, constraints, units, maxUnits)
  {
    assert [a, b][1..] == [b] && [b][1..] == [];
    assert BuildSlots([], constraints, units, maxUnits) == [];
    assert BuildSlots([b], constraints, units, maxUnits)
           == SlotsFor(b, constraints, units, maxUnits) + [];
    assert SlotsFor(b, constraints, units, maxUnits) + [] == SlotsFor(b, constraints, units, maxUnits);
  }

  /** With 99 billion, F does not fit, so nothing is bought up front and both
      projects get a slot, G's first. */
  lemma CrowdingPre99()
    ensures PreStage(CrowdingCatalog(), ForceFirst(99)) == Baseline(99_000_000_000, map[], 0, 0)
  {
    var cat := CrowdingCatalog().catalog;
    assert cat[..1] == [cat[0]] && [cat[0]][..0] == [];
    assert PrePurchase([cat[0]], map[1 := Force], 99_000_000_000) == Baseline(99_000_000_000, map[], 0, 0);
  }

  /** Two projects that may each gain exactly one unit get one slot each, in
      catalog order. */
  lemma OneSlotEachLeft(a: Project, b: Project, constraints: map<int, Constraint>, units: map<int, int>)
    requires ConstraintOf(constraints, a.id) != Exclude && a.cost > 0 && UnitsOf(units, a.id) == 0
    requires ConstraintOf(constraints, b.id) != Exclude && b.cost > 0 && UnitsOf(units, b.id) == 0
    ensures BuildSlots([a, b], constraints, units, 1)
            == [Slot(a.id, a.cost, a.npv, a.npv as real / a.cost as real),
                Slot(b.id, b.cost, b.npv, b.npv as real / b.cost as real)]
  {
    OneSlotLeft(a, constraints, units, 1);
    OneSlotLeft(b, constraints, units, 1);
    BuildTwo(a, b, constraints, units, 1);
  }

  lemma CrowdingBuild99()
    ensures BuildSlots(CrowdingCatalog().catalog, map[1 := Force], map[], 1) == [CrowdingF(), CrowdingG()]
  {
    var none: map<int, int> := map[];
    OneSlotEachLeft(Project(1, 100_000_000_000, 1_000_000_000), Project(2, 98_000_000_000, 1_000_000_000_000),
                    map[1 := Force], none);
  }

  lemma CrowdingRatios()
    ensures CrowdingG().ratio > CrowdingF().ratio
  {
  }

  lemma CrowdingSlots99()
    ensures SlotStage(CrowdingCatalog(), ForceFirst(99)) == CrowdingItems()
  {
    CrowdingPre99();
    CrowdingBuild99();
    CrowdingRatios();
    SortTwo(CrowdingF(), CrowdingG());
  }

  /** Two slots are sorted by putting the more efficient first. */
  lemma SortTwo(x: Slot, y: Slot)
    requires y.ratio > x.ratio
    ensures SortByRatio([x, y]) == [y, x]
  {
    assert [x, y][1..] == [y] && [y][1..] == [];
    assert SortByRatio([y]) == Insert(y, []) == [y];
  }

  /** The slots on 99 billion, in efficiency order. */
  function CrowdingItems(): seq<Slot> {
    [CrowdingG(), CrowdingF()]
  }

  /** Taking G leaves 1 billion, too little for F, so G alone is recorded. */
  lemma CrowdingTakeG(cutoff: Cutoff)
    ensures Include(CrowdingItems(), 99_000_000_000, cutoff, 0, 0, 0, [], Incumbent(0, []))
            == Incumbent(1_000_000_000_000, [0])
  {
    var items := CrowdingItems();
    var none := Incumbent(0, []);
    var withG := Incumbent(1_000_000_000_000, [0]);
    assert Greedy(items, 1, 1_000_000_000) == 10_000_000.0;
    assert Solve(items, 99_000_000_000, cutoff, 2, 98_000_000_000, 1_000_000_000_000, [0], none) == withG;
    assert Solve(items, 99_000_000_000, cutoff, 1, 98_000_000_000, 1_000_000_000_000, [0], none) == withG;
  }

  /** Leaving G out, F's fraction of the budget cannot beat G: pruned. */
  lemma CrowdingSkipG(cutoff: Cutoff)
    ensures Solve(CrowdingItems(), 99_000_000_000, cutoff, 1, 0, 0, [], Incumbent(1_000_000_000_000, [0]))
            == Incumbent(1_000_000_000_000, [0])
  {
    assert Greedy(CrowdingItems(), 1, 99_000_000_000) == 990_000_000.0;
  }

  /** On 99 billion the search takes G, which leaves no room for F. */
  lemma CrowdingSearch99(cutoff: Cutoff)
    ensures SearchStage(CrowdingCatalog(), ForceFirst(99), cutoff) == Incumbent(1_000_000_000_000, [0])
  {
    CrowdingPre99();
    CrowdingSlots99();
    CrowdingItemsSearch(cutoff);
  }

  lemma CrowdingItemsSearch(cutoff: Cutoff)
    ensures Search(CrowdingItems(), 99_000_000_000, cutoff) == Incumbent(1_000_000_000_000, [0])
  {
    CrowdingTakeG(cutoff);
    CrowdingSkipG(cutoff);
    CrowdingRootBound();
  }

  /** The bound at the root: all of G and a hundredth of F. */
  lemma CrowdingRootBound()
    ensures Greedy(CrowdingItems(), 0, 99_000_000_000) == 1_000_010_000_000.0
  {
    assert Greedy(CrowdingItems(), 1, 1_000_000_000) == 10_000_000.0;
  }

  /** With 100 billion, F fits and is bought, leaving nothing: F has no slot
      left and G's slot is the only one. */
  lemma CrowdingPre100()
    ensures PreStage(CrowdingCatalog(), ForceFirst(100))
            == Baseline(0, map[1 := 1], 100_000_000_000, 1_000_000_000)
  {
    var cat := CrowdingCatalog().catalog;
    var empty: map<int, int> := map[];
    assert cat[..1] == [cat[0]] && [cat[0]][..0] == [];
    assert PrePurchase([], map[1 := Force], 100_000_000_000) == Baseline(100_000_000_000, empty, 0, 0);
    assert PrePurchase([cat[0]], map[1 := Force], 100_000_000_000)
           == Baseline(0, map[1 := 1], 100_000_000_000, 1_000_000_000);
  }

  lemma CrowdingSlots100()
    ensures SlotStage(CrowdingCatalog(), ForceFirst(100)) == [CrowdingG()]
  {
    var cat := CrowdingCatalog().catalog;
    var bought := map[1 := 1];
    CrowdingPre100();
    assert SlotsFor(cat[0], map[1 := Force], bought, 1) == [];
    OneSlotLeft(cat[1], map[1 := Force], bought, 1);
    BuildTwo(cat[0], cat[1], map[1 := Force], bought, 1);
    assert [CrowdingG()][1..] == [];
    assert SortByRatio([CrowdingG()]) == Insert(CrowdingG(), []) == [CrowdingG()];
  }

  /** On the nothing F leaves, the bound is 0 at the root and the search
      returns the empty selection. */
  lemma CrowdingSearch100(cutoff: Cutoff)
    ensures SearchStage(CrowdingCatalog(), ForceFirst(100), cutoff) == Incumbent(0, [])
  {
    CrowdingPre100();
    CrowdingSlots100();
    CrowdingNoRoom(cutoff);
  }

  lemma CrowdingNoRoom(cutoff: Cutoff)
    ensures Search([CrowdingG()], 0, cutoff) == Incumbent(0, [])
  {
    assert Greedy([CrowdingG()], 0, 0) == 0.0;
  }

  /** The operational profit is not monotone in the budget: one billion more
      lets the forced F in, and F uses up what G would have earned 1000
      billion with, under either give-up rule. */
  lemma BudgetNotMonotone(cutoff: Cutoff)
    ensures CalculatePortfolio(CrowdingCatalog(), ForceFirst(99), cutoff).operationalProfit == 1_000_000_000_000
    ensures CalculatePortfolio(CrowdingCatalog(), ForceFirst(100), cutoff).operationalProfit == 1_000_000_000
  {
    PortfolioTotals(CrowdingCatalog(), ForceFirst(99), cutoff);
    CrowdingPre99();
    CrowdingSearch99(cutoff);
    PortfolioTotals(CrowdingCatalog(), ForceFirst(100), cutoff);
    CrowdingPre100();
    CrowdingSearch100(cutoff);
  }

  // ---------------------------------------------------------------- the shipped settings

  /** For the shipped catalog and constants, and any nonnegative budget,
      the portfolio costs at most the budget and lists projects in id
      order. */
  lemma ShippedWithinBudget(inp: Inputs, cutoff: Cutoff)
    requires inp.budgetTotalBillions >= 0
    ensures var r := CalculatePortfolio(Shipped(), inp, cutoff);
            && r.totalInvestmentCost <= BudgetTotal(inp)
            && InIdOrder(r.portfolio)
  {
    var cfg := Shipped();
    WithinBudget(cfg, inp, cutoff);
    HoldingsInCatalogOrder(cfg.catalog, FinalUnits(cfg, inp, cutoff));
  }

  /** For the shipped settings no project holds more than three units, and an
      excluded project holds none. */
  lemma ShippedUnitCap(inp: Inputs, cutoff: Cutoff, id: int)
    ensures 0 <= UnitsOf(FinalUnits(Shipped(), inp, cutoff), id) <= 3
    ensures ConstraintOf(inp.constraints, id) == Exclude ==> UnitsOf(FinalUnits(Shipped(), inp, cutoff), id) == 0
  {
    UnitCap(Shipped(), inp, cutoff, id);
  }

  /** For the shipped settings, with the corrected bound, no way of spending
      what the forced purchases leave earns more than the portfolio. */
  lemma ShippedOptimal(inp: Inputs)
    ensures var items := SlotStage(Shipped(), inp);
            forall sel :: IsSelection(sel, 0, |items|) && Weight(items, sel) <= PreStage(Shipped(), inp).budget ==>
              PreStage(Shipped(), inp).npv + Value(items, sel) <= CalculatePortfolio(Shipped(), inp, OverBudget).operationalProfit
  {
    PortfolioOptimal(Shipped(), inp);
  }
}
