/** Depth-first branch-and-bound over the sorted slots, threading the
    incumbent (best value and best selection) through the recursion. */
module Knapsack {
  import opened Items
  import opened Bound

  /** The search's best-so-far: `bestValue` and a copy of `bestSelection`. */
  datatype Incumbent = Incumbent(value: int, selection: seq<int>)

  /** The incumbent's invariant: a selection of slots whose value it records,
      worth at least nothing, and within the budget unless it is the initial
      empty selection. */
  predicate Admissible(items: seq<Slot>, budget: int, inc: Incumbent) {
    && IsSelection(inc.selection, 0, |items|)
    && inc.value == Value(items, inc.selection)
    && inc.value >= 0
    && (Weight(items, inc.selection) <= budget || inc.selection == [])
  }

  /** One call of the recursive solver at slot `index`, with the current path
      `cur` (weight `curWeight`, value `curValue`) and incumbent `best`:
      abandon an over-budget path, record a complete path that beats the
      incumbent, prune when the bound cannot beat the incumbent, and otherwise
      try including slot `index` (if it fits) before excluding it. */
  function Solve(items: seq<Slot>, budget: int, cutoff: Cutoff, index: nat,
                 curWeight: int, curValue: int, cur: seq<int>, best: Incumbent): (r: Incumbent)
    requires index <= |items|
    requires IsSelection(cur, 0, index)
    requires curWeight == Weight(items, cur) && curValue == Value(items, cur)
    requires Admissible(items, budget, best)
    ensures Admissible(items, budget, r)
    ensures r.value >= best.value
    decreases |items| - index, 1
  {
    if curWeight > budget then best
    else if index == |items| then
      if curValue > best.value then Incumbent(curValue, cur) else best
    else if GetBound(items, budget, cutoff, index, curWeight, curValue) <= best.value as real then best
    else
      var afterInclude := Include(items, budget, cutoff, index, curWeight, curValue, cur, best);
      Solve(items, budget, cutoff, index + 1, curWeight, curValue, cur, afterInclude)
  }

  /** The include branch: descend with slot `index` added when it fits in the
      budget, and leave the incumbent alone when it does not. */
  function Include(items: seq<Slot>, budget: int, cutoff: Cutoff, index: nat,
                   curWeight: int, curValue: int, cur: seq<int>, best: Incumbent): (r: Incumbent)
    requires index < |items|
    requires IsSelection(cur, 0, index)
    requires curWeight == Weight(items, cur) && curValue == Value(items, cur)
    requires Admissible(items, budget, best)
    ensures Admissible(items, budget, r)
    ensures r.value >= best.value
    decreases |items| - index, 0
  {
    if curWeight + items[index].weight <= budget then
      AppendOne(items, cur, index);
      ExtendSelection(cur, 0, index);
      Solve(items, budget, cutoff, index + 1, curWeight + items[index].weight,
            curValue + items[index].value, cur + [index], best)
    else best
  }

  /** The whole search: `solve(0, 0, 0, [])` from the incumbent (0, []). With a
      negative budget nothing is searched and the empty selection comes back. */
  function Search(items: seq<Slot>, budget: int, cutoff: Cutoff): (r: Incumbent)
    ensures Admissible(items, budget, r)
    ensures budget >= 0 ==> Weight(items, r.selection) <= budget
    ensures budget < 0 ==> r == Incumbent(0, [])
  {
    Solve(items, budget, cutoff, 0, 0, 0, [], Incumbent(0, []))
  }

  /** What a node can promise: every completion `ext` of its path from
      `items[index..]` that the bound does not give up on is matched by the
      result. Under `AtBudget` this covers only completions that leave some
      budget unused. */
  lemma {:induction false} SolveDominates(items: seq<Slot>, budget: int, cutoff: Cutoff, index: nat,
                                          curWeight: int, curValue: int, cur: seq<int>, best: Incumbent,
                                          ext: seq<int>)
    requires AllWellFormed(items) && SortedByRatio(items)
    requires index <= |items|
    requires IsSelection(cur, 0, index)
    requires curWeight == Weight(items, cur) && curValue == Value(items, cur)
    requires Admissible(items, budget, best)
    requires IsSelection(ext, index, |items|)
    requires !GivesUp(cutoff, curWeight + Weight(items, ext), budget)
    ensures Solve(items, budget, cutoff, index, curWeight, curValue, cur, best).value
            >= curValue + Value(items, ext)
    decreases |items| - index, 2
  {
    WeightNonnegative(items, ext);
    assert !GivesUp(cutoff, curWeight, budget);
    if index == |items| {
      assert ext == [];
    } else if GetBound(items, budget, cutoff, index, curWeight, curValue) <= best.value as real {
      BoundSound(items, budget, cutoff, index, curWeight, curValue, ext);
    } else if ext != [] && ext[0] == index {
      DominatesViaInclude(items, budget, cutoff, index, curWeight, curValue, cur, best, ext);
    } else {
      assert IsSelection(ext, index + 1, |items|);
      var afterInclude := Include(items, budget, cutoff, index, curWeight, curValue, cur, best);
      SolveDominates(items, budget, cutoff, index + 1, curWeight, curValue, cur, afterInclude, ext);
    }
  }

  /** A completion that takes slot `index` is found below the include branch
      and survives the exclude branch, which never lowers the incumbent. */
  lemma {:induction false} DominatesViaInclude(items: seq<Slot>, budget: int, cutoff: Cutoff, index: nat,
                                               curWeight: int, curValue: int, cur: seq<int>, best: Incumbent,
                                               ext: seq<int>)
    requires AllWellFormed(items) && SortedByRatio(items)
    requires index < |items|
    requires IsSelection(cur, 0, index)
    requires curWeight == Weight(items, cur) && curValue == Value(items, cur)
    requires Admissible(items, budget, best)
    requires IsSelection(ext, index, |items|) && ext != [] && ext[0] == index
    requires !GivesUp(cutoff, curWeight + Weight(items, ext), budget)
    ensures Include(items, budget, cutoff, index, curWeight, curValue, cur, best).value
            >= curValue + Value(items, ext)
    decreases |items| - index, 1
  {
    var rest := ext[1..];
    TailIsSelection(ext, index, |items|);
    WeightNonnegative(items, rest);
    assert Weight(items, ext) == items[index].weight + Weight(items, rest);
    assert Value(items, ext) == items[index].value + Value(items, rest);
    IncludeAtLeast(items, budget, cutoff, index, curWeight, curValue, cur, best, rest);
  }

  /** The include branch of a node whose slot `index` fits, followed by the
      completion `rest` from `items[index + 1..]`, is matched by the result. */
  lemma {:induction false} IncludeAtLeast(items: seq<Slot>, budget: int, cutoff: Cutoff, index: nat,
                                          curWeight: int, curValue: int, cur: seq<int>, best: Incumbent,
                                          rest: seq<int>)
    requires AllWellFormed(items) && SortedByRatio(items)
    requires index < |items|
    requires IsSelection(cur, 0, index)
    requires curWeight == Weight(items, cur) && curValue == Value(items, cur)
    requires Admissible(items, budget, best)
    requires IsSelection(rest, index + 1, |items|)
    requires curWeight + items[index].weight <= budget
    requires !GivesUp(cutoff, curWeight + items[index].weight + Weight(items, rest), budget)
    ensures Include(items, budget, cutoff, index, curWeight, curValue, cur, best).value
            >= curValue + items[index].value + Value(items, rest)
    decreases |items| - index, 0
  {
    AppendOne(items, cur, index);
    ExtendSelection(cur, 0, index);
    SolveDominates(items, budget, cutoff, index + 1, curWeight + items[index].weight,
                   curValue + items[index].value, cur + [index], best, rest);
  }

  /** The corrected search is exact: no selection within the budget is worth
      more than the one it returns. */
  lemma SearchOptimal(items: seq<Slot>, budget: int)
    requires AllWellFormed(items) && SortedByRatio(items)
    ensures forall sel :: IsSelection(sel, 0, |items|) && Weight(items, sel) <= budget ==>
              Value(items, sel) <= Search(items, budget, OverBudget).value
  {
    forall sel | IsSelection(sel, 0, |items|) && Weight(items, sel) <= budget
      ensures Value(items, sel) <= Search(items, budget, OverBudget).value
    {
      SolveDominates(items, budget, OverBudget, 0, 0, 0, [], Incumbent(0, []), sel);
    }
  }

  /** The search as written is exact only over selections that leave some of
      the budget unspent. */
  lemma SearchAsWrittenNearOptimal(items: seq<Slot>, budget: int)
    requires AllWellFormed(items) && SortedByRatio(items)
    ensures forall sel :: IsSelection(sel, 0, |items|) && Weight(items, sel) < budget ==>
              Value(items, sel) <= Search(items, budget, AtBudget).value
  {
    forall sel | IsSelection(sel, 0, |items|) && Weight(items, sel) < budget
      ensures Value(items, sel) <= Search(items, budget, AtBudget).value
    {
      SolveDominates(items, budget, AtBudget, 0, 0, 0, [], Incumbent(0, []), sel);
    }
  }

  /** Two slots already in efficiency order, the first of which exactly fills
      a budget of 100 billion. */
  function FullBudgetItems(): (items: seq<Slot>)
    ensures AllWellFormed(items) && SortedByRatio(items)
  {
    [Slot(1, 100_000_000_000, 50_000_000_000, 0.5), Slot(2, 200_000_000_000, 10_000_000_000, 0.05)]
  }

  /** The search as written returns nothing for `FullBudgetItems` and a budget
      of 100 billion, although taking the first slot alone spends exactly the budget
      and is worth 50 billion: the node holding that slot gets bound 0 and is pruned. */
  lemma AsWrittenMissesFullBudget()
    ensures Search(FullBudgetItems(), 100_000_000_000, AtBudget) == Incumbent(0, [])
    ensures IsSelection([0], 0, |FullBudgetItems()|)
    ensures Weight(FullBudgetItems(), [0]) == 100_000_000_000 && Value(FullBudgetItems(), [0]) == 50_000_000_000
  {
    var items := FullBudgetItems();
    var none := Incumbent(0, []);
    assert Greedy(items, 1, 0) == 0.0;
    assert Greedy(items, 0, 100_000_000_000) == 50_000_000_000.0;
    assert Greedy(items, 1, 100_000_000_000) == 5_000_000_000.0;
    assert Weight(items, [0]) == 100_000_000_000 && Value(items, [0]) == 50_000_000_000;
    assert Solve(items, 100_000_000_000, AtBudget, 1, 100_000_000_000, 50_000_000_000, [0], none) == none;
    assert Include(items, 100_000_000_000, AtBudget, 0, 0, 0, [], none) == none;
    assert Solve(items, 100_000_000_000, AtBudget, 2, 0, 0, [], none) == none;
    assert Include(items, 100_000_000_000, AtBudget, 1, 0, 0, [], none) == none;
    assert Solve(items, 100_000_000_000, AtBudget, 1, 0, 0, [], none) == none;
  }

  /** The corrected search finds the full-budget selection. */
  lemma CorrectedTakesFullBudget()
    ensures Search(FullBudgetItems(), 100_000_000_000, OverBudget) == Incumbent(50_000_000_000, [0])
  {
    var items := FullBudgetItems();
    var none := Incumbent(0, []);
    var found := Incumbent(50_000_000_000, [0]);
    assert Greedy(items, 1, 0) == 0.0;
    assert Greedy(items, 0, 100_000_000_000) == 50_000_000_000.0;
    assert Greedy(items, 1, 100_000_000_000) == 5_000_000_000.0;
    assert Weight(items, [0]) == 100_000_000_000 && Value(items, [0]) == 50_000_000_000;
    assert Solve(items, 100_000_000_000, OverBudget, 2, 100_000_000_000, 50_000_000_000, [0], none) == found;
    assert Include(items, 100_000_000_000, OverBudget, 1, 100_000_000_000, 50_000_000_000, [0], none) == none;
    assert Solve(items, 100_000_000_000, OverBudget, 1, 100_000_000_000, 50_000_000_000, [0], none) == found;
    assert Include(items, 100_000_000_000, OverBudget, 0, 0, 0, [], none) == found;
    assert Solve(items, 100_000_000_000, OverBudget, 1, 0, 0, [], found) == found;
  }
}
