/** The fractional-relaxation (Dantzig) upper bound used to prune the search. */
module Bound {
  import opened Items

  /** When the bound gives up and answers 0. The source answers 0 as soon as the
      weight used reaches the budget (`AtBudget`); the evidently intended rule,
      the one under which the bound is sound for every node, answers 0 only once
      the weight exceeds the budget (`OverBudget`). */
  datatype Cutoff = AtBudget | OverBudget

  /** True when the bound answers 0 for a node that has used `curWeight`. */
  predicate GivesUp(cutoff: Cutoff, curWeight: int, budget: int)
    ensures curWeight > budget ==> GivesUp(cutoff, curWeight, budget)
  {
    match cutoff
    case AtBudget => curWeight >= budget
    case OverBudget => curWeight > budget
  }

  /** Greedy fractional fill of capacity `cap` with `items[j..]`: take whole
      slots while they fit, then the fitting fraction of the first one that
      does not, and stop. */
  function Greedy(items: seq<Slot>, j: nat, cap: int): real
    requires j <= |items| && cap >= 0
    decreases |items| - j
  {
    if j == |items| then 0.0
    else if items[j].weight <= cap then
      items[j].value as real + Greedy(items, j + 1, cap - items[j].weight)
    else
      items[j].value as real * (cap as real / items[j].weight as real)
  }

  /** The bound of a search node at `index` that has used `curWeight` and
      gathered `curValue`. */
  function GetBound(items: seq<Slot>, budget: int, cutoff: Cutoff,
                    index: nat, curWeight: int, curValue: int): (r: real)
    requires index <= |items|
    ensures GivesUp(cutoff, curWeight, budget) ==> r == 0.0
  {
    if GivesUp(cutoff, curWeight, budget) then 0.0
    else curValue as real + Greedy(items, index, budget - curWeight)
  }

  /** The fraction of a slot is its ratio times the capacity it fills. */
  lemma FractionIsRatio(s: Slot, cap: int)
    requires WellFormed(s)
    ensures s.value as real * (cap as real / s.weight as real) == s.ratio * cap as real
    ensures s.value as real == s.ratio * s.weight as real
  {
    var v, w, c := s.value as real, s.weight as real, cap as real;
    assert s.ratio * w == v by {
      assert s.ratio == v / w;
    }
    calc {
      v * (c / w);
      (s.ratio * w) * (c / w);
      s.ratio * (w * (c / w));
      { assert w * (c / w) == c; }
      s.ratio * c;
    }
  }

  /** One step of the greedy fill, with the fraction written as ratio times
      capacity. */
  lemma GreedyStep(items: seq<Slot>, k: nat, c: int)
    requires AllWellFormed(items) && k < |items| && c >= 0
    ensures items[k].weight <= c ==>
      Greedy(items, k, c) == items[k].ratio * items[k].weight as real + Greedy(items, k + 1, c - items[k].weight)
    ensures items[k].weight > c ==> Greedy(items, k, c) == items[k].ratio * c as real
    ensures items[k].weight > 0 && items[k].value >= 0 && items[k].ratio >= 0.0
  {
    assert WellFormedAt(items, k);
    FractionIsRatio(items[k], c);
  }

  /** With no capacity left the greedy fill is worth nothing. */
  lemma GreedyEmpty(items: seq<Slot>, j: nat)
    requires AllWellFormed(items) && j <= |items|
    ensures Greedy(items, j, 0) == 0.0
  {
    if j < |items| {
      GreedyStep(items, j, 0);
    }
  }

  /** Extra capacity is worth at most `rho` per unit once `rho` bounds the
      ratio of every remaining slot: the greedy fill grows no faster than the
      best remaining ratio. */
  lemma {:induction false} GreedySlope(items: seq<Slot>, k: nat, c: int, c': int, rho: real)
    requires AllWellFormed(items) && SortedByRatio(items) && k <= |items|
    requires 0 <= c' <= c && rho >= 0.0
    requires k < |items| ==> items[k].ratio <= rho
    ensures Greedy(items, k, c) <= Greedy(items, k, c') + rho * (c - c') as real
    decreases |items| - k, 2
  {
    if k == |items| {
      NonnegativeProduct(rho, (c - c') as real);
    } else if items[k].weight <= c' {
      SlopeBothFit(items, k, c, c', rho);
    } else if items[k].weight <= c {
      SlopeOneFits(items, k, c, c', rho);
    } else {
      GreedyStep(items, k, c);
      GreedyStep(items, k, c');
      SlopeFraction(items[k].ratio, rho, c as real, c' as real);
    }
  }

  lemma {:induction false} SlopeBothFit(items: seq<Slot>, k: nat, c: int, c': int, rho: real)
    requires AllWellFormed(items) && SortedByRatio(items) && k < |items|
    requires 0 <= c' && items[k].weight <= c' <= c && rho >= 0.0 && items[k].ratio <= rho
    ensures Greedy(items, k, c) <= Greedy(items, k, c') + rho * (c - c') as real
    decreases |items| - k, 1
  {
    var w := items[k].weight;
    GreedyStep(items, k, c);
    GreedyStep(items, k, c');
    GreedySlope(items, k + 1, c - w, c' - w, rho);
  }

  lemma {:induction false} SlopeOneFits(items: seq<Slot>, k: nat, c: int, c': int, rho: real)
    requires AllWellFormed(items) && SortedByRatio(items) && k < |items|
    requires 0 <= c' < items[k].weight <= c && rho >= 0.0 && items[k].ratio <= rho
    ensures Greedy(items, k, c) <= Greedy(items, k, c') + rho * (c - c') as real
    decreases |items| - k, 1
  {
    var w := items[k].weight;
    var r := items[k].ratio;
    OneFitsShape(items, k, c, c');
    OneFitsRest(items, k, c);
    SlopeStraddle(r, rho, w as real, c as real, c' as real, Greedy(items, k + 1, c - w));
  }

  /** The greedy fill of `c` takes slot `k` whole; that of `c'` only a
      fraction of it. */
  lemma OneFitsShape(items: seq<Slot>, k: nat, c: int, c': int)
    requires AllWellFormed(items) && k < |items|
    requires 0 <= c' < items[k].weight <= c
    ensures Greedy(items, k, c)
            == items[k].ratio * items[k].weight as real + Greedy(items, k + 1, c - items[k].weight)
    ensures Greedy(items, k, c') == items[k].ratio * c' as real
    ensures 0.0 <= items[k].ratio
  {
    GreedyStep(items, k, c);
    GreedyStep(items, k, c');
  }

  /** After slot `k`, the fill is worth at most `k`'s ratio per unit. */
  lemma {:induction false} OneFitsRest(items: seq<Slot>, k: nat, c: int)
    requires AllWellFormed(items) && SortedByRatio(items) && k < |items|
    requires 0 < items[k].weight <= c
    ensures Greedy(items, k + 1, c - items[k].weight) <= items[k].ratio * (c - items[k].weight) as real
    decreases |items| - k, 0
  {
    GreedyStep(items, k, c);
    GreedySlope(items, k + 1, c - items[k].weight, 0, items[k].ratio);
    GreedyEmpty(items, k + 1);
  }

  lemma NonnegativeProduct(a: real, b: real)
    requires a >= 0.0 && b >= 0.0
    ensures a * b >= 0.0
  {
  }

  /** Arithmetic of the case where the slot fits `c` but not `c'`. */
  lemma SlopeStraddle(r: real, rho: real, w: real, c: real, c': real, g: real)
    requires 0.0 <= r <= rho && c' < w <= c
    requires g <= r * (c - w)
    ensures r * w + g <= r * c' + rho * (c - c')
  {
    assert r * w + r * (c - w) == r * c;
    assert r * c == r * c' + r * (c - c');
    assert r * (c - c') <= rho * (c - c') by {
      assert (rho - r) * (c - c') >= 0.0 by {
        NonnegativeProduct(rho - r, c - c');
      }
    }
  }

  /** Arithmetic of the case where the slot fits neither capacity. */
  lemma SlopeFraction(r: real, rho: real, c: real, c': real)
    requires 0.0 <= r <= rho && c' <= c
    ensures r * c <= r * c' + rho * (c - c')
  {
    assert r * c == r * c' + r * (c - c');
    assert (rho - r) * (c - c') >= 0.0 by {
      NonnegativeProduct(rho - r, c - c');
    }
  }

  /** Soundness of the relaxation: no selection of `items[j..]` that fits in
      `cap` is worth more than the greedy fractional fill of `cap`. */
  lemma {:induction false} GreedyDominates(items: seq<Slot>, j: nat, cap: int, sel: seq<int>)
    requires AllWellFormed(items) && SortedByRatio(items) && j <= |items|
    requires cap >= 0 && IsSelection(sel, j, |items|) && Weight(items, sel) <= cap
    ensures Value(items, sel) as real <= Greedy(items, j, cap)
    decreases |items| - j, 1
  {
    if j == |items| {
      assert sel == [];
    } else if sel != [] && sel[0] == j {
      DominatesTaken(items, j, cap, sel);
    } else {
      DominatesSkipped(items, j, cap, sel);
    }
  }

  /** The selection takes slot `j`: both sides gain its value. */
  lemma {:induction false} DominatesTaken(items: seq<Slot>, j: nat, cap: int, sel: seq<int>)
    requires AllWellFormed(items) && SortedByRatio(items) && j < |items|
    requires cap >= 0 && IsSelection(sel, j, |items|) && Weight(items, sel) <= cap
    requires sel != [] && sel[0] == j
    ensures Value(items, sel) as real <= Greedy(items, j, cap)
    decreases |items| - j, 0
  {
    var w := items[j].weight;
    TailIsSelection(sel, j, |items|);
    WeightNonnegative(items, sel[1..]);
    assert w <= cap;
    GreedyDominates(items, j + 1, cap - w, sel[1..]);
  }

  /** The selection skips slot `j`: what it takes instead from later slots is
      worth at most `j`'s ratio per unit of capacity. */
  lemma {:induction false} DominatesSkipped(items: seq<Slot>, j: nat, cap: int, sel: seq<int>)
    requires AllWellFormed(items) && SortedByRatio(items) && j < |items|
    requires cap >= 0 && IsSelection(sel, j, |items|) && Weight(items, sel) <= cap
    requires sel == [] || sel[0] != j
    ensures Value(items, sel) as real <= Greedy(items, j, cap)
    decreases |items| - j, 0
  {
    assert IsSelection(sel, j + 1, |items|);
    GreedyDominates(items, j + 1, cap, sel);
    GreedyStep(items, j, cap);
    if items[j].weight <= cap {
      SkippedFits(items, j, cap);
    } else {
      SkippedOverflows(items, j, cap);
    }
  }

  /** When slot `j` fits, the greedy fill from `j` is at least the fill from
      `j + 1`. */
  lemma SkippedFits(items: seq<Slot>, j: nat, cap: int)
    requires AllWellFormed(items) && SortedByRatio(items) && j < |items|
    requires 0 <= items[j].weight <= cap
    ensures Greedy(items, j + 1, cap) <= Greedy(items, j, cap)
  {
    var w := items[j].weight;
    var r := items[j].ratio;
    GreedyStep(items, j, cap);
    GreedySlope(items, j + 1, cap, cap - w, r);
  }

  /** When slot `j` does not fit, its fraction is worth at least the fill from
      `j + 1`. */
  lemma SkippedOverflows(items: seq<Slot>, j: nat, cap: int)
    requires AllWellFormed(items) && SortedByRatio(items) && j < |items|
    requires 0 <= cap < items[j].weight
    ensures Greedy(items, j + 1, cap) <= Greedy(items, j, cap)
  {
    var r := items[j].ratio;
    GreedyStep(items, j, cap);
    GreedySlope(items, j + 1, cap, 0, r);
    GreedyEmpty(items, j + 1);
  }

  /** The bound of a node that has room left is at least the value of every
      completion of that node from `items[index..]` that still fits. */
  lemma BoundSound(items: seq<Slot>, budget: int, cutoff: Cutoff,
                   index: nat, curWeight: int, curValue: int, ext: seq<int>)
    requires AllWellFormed(items) && SortedByRatio(items) && index <= |items|
    requires IsSelection(ext, index, |items|)
    requires !GivesUp(cutoff, curWeight, budget) && curWeight + Weight(items, ext) <= budget
    ensures (curValue + Value(items, ext)) as real <= GetBound(items, budget, cutoff, index, curWeight, curValue)
  {
    WeightNonnegative(items, ext);
    GreedyDominates(items, index, budget - curWeight, ext);
  }
}
