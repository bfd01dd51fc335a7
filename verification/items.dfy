/** Unit-slots and index selections: the objects the knapsack search works on. */
module Items {

  /** One purchasable unit of a catalog project: the optimizer's KnapsackItem.
      `weight` is the project's cost, `value` its NPV and `ratio` the efficiency
      value/weight computed when the slot is created. */
  datatype Slot = Slot(projectId: int, weight: int, value: int, ratio: real)

  /** A slot the search and its bound can rely on: positive weight, nonnegative
      value, and a ratio that really is value/weight. */
  predicate WellFormed(s: Slot) {
    s.weight > 0 && s.value >= 0 && s.ratio == s.value as real / s.weight as real
  }

  /** Slot `i` of `items` is well formed. Quantifying over this predicate,
      rather than over `WellFormed(items[i])`, keeps the ratio equation of a
      slot out of a proof until the proof asks for that slot. */
  predicate WellFormedAt(items: seq<Slot>, i: int)
    requires 0 <= i < |items|
  {
    WellFormed(items[i])
  }

  predicate AllWellFormed(items: seq<Slot>) {
    forall i :: 0 <= i < |items| ==> WellFormedAt(items, i)
  }

  /** Non-increasing efficiency, the order the search expects. */
  predicate SortedByRatio(items: seq<Slot>) {
    forall i, j :: 0 <= i < j < |items| ==> items[i].ratio >= items[j].ratio
  }

  /** Every index of `sel` lies in [lo, hi). */
  predicate InRange(sel: seq<int>, lo: int, hi: int) {
    forall k :: 0 <= k < |sel| ==> lo <= sel[k] < hi
  }

  /** A selection: strictly increasing indices in [lo, hi), each slot taken at most once. */
  predicate IsSelection(sel: seq<int>, lo: int, hi: int) {
    && InRange(sel, lo, hi)
    && forall k, l :: 0 <= k < l < |sel| ==> sel[k] < sel[l]
  }

  /** Total weight of the selected slots. */
  function Weight(items: seq<Slot>, sel: seq<int>): int
    requires InRange(sel, 0, |items|)
  {
    if sel == [] then 0 else items[sel[0]].weight + Weight(items, sel[1..])
  }

  /** Total value of the selected slots. */
  function Value(items: seq<Slot>, sel: seq<int>): int
    requires InRange(sel, 0, |items|)
  {
    if sel == [] then 0 else items[sel[0]].value + Value(items, sel[1..])
  }

  /** Number of slots belonging to project `id`. */
  function CountOf(items: seq<Slot>, id: int): nat {
    if items == [] then 0
    else (if items[0].projectId == id then 1 else 0) + CountOf(items[1..], id)
  }

  /** Number of selected slots belonging to project `id`. */
  function CountSelected(items: seq<Slot>, sel: seq<int>, id: int): nat
    requires InRange(sel, 0, |items|)
  {
    if sel == [] then 0
    else (if items[sel[0]].projectId == id then 1 else 0) + CountSelected(items, sel[1..], id)
  }

  lemma {:induction false} WeightNonnegative(items: seq<Slot>, sel: seq<int>)
    requires AllWellFormed(items) && InRange(sel, 0, |items|)
    ensures Weight(items, sel) >= 0 && Value(items, sel) >= 0
    ensures sel != [] ==> Weight(items, sel) > 0
  {
    if sel != [] {
      assert WellFormedAt(items, sel[0]);
      WeightNonnegative(items, sel[1..]);
    }
  }

  /** Appending one index adds that slot's weight and value: the search grows
      its current selection at the end. */
  lemma {:induction false} AppendOne(items: seq<Slot>, sel: seq<int>, i: int)
    requires InRange(sel, 0, |items|) && 0 <= i < |items|
    ensures InRange(sel + [i], 0, |items|)
    ensures Weight(items, sel + [i]) == Weight(items, sel) + items[i].weight
    ensures Value(items, sel + [i]) == Value(items, sel) + items[i].value
    ensures forall id :: CountSelected(items, sel + [i], id)
                         == CountSelected(items, sel, id) + (if items[i].projectId == id then 1 else 0)
  {
    if sel == [] {
      assert sel + [i] == [i];
    } else {
      assert (sel + [i])[1..] == sel[1..] + [i];
      AppendOne(items, sel[1..], i);
    }
  }

  /** The search extends a selection of `[lo, i)` by index `i`. */
  lemma ExtendSelection(sel: seq<int>, lo: int, i: int)
    requires IsSelection(sel, lo, i) && lo <= i
    ensures IsSelection(sel + [i], lo, i + 1)
  {
  }

  /** Dropping the first index of a selection leaves a selection above it. */
  lemma TailIsSelection(sel: seq<int>, lo: int, hi: int)
    requires IsSelection(sel, lo, hi) && sel != []
    ensures IsSelection(sel[1..], sel[0] + 1, hi)
  {
  }

  lemma {:induction false} CountSuffix(items: seq<Slot>, lo: int, k: int, id: int)
    requires 0 <= lo <= k <= |items|
    ensures CountOf(items[k..], id) <= CountOf(items[lo..], id)
    decreases k - lo
  {
    if lo < k {
      assert items[lo..][1..] == items[lo + 1..];
      CountSuffix(items, lo + 1, k, id);
    }
  }

  /** A selection cannot take more slots of a project than there are. */
  lemma {:induction false} SelectedAtMostAvailable(items: seq<Slot>, sel: seq<int>, lo: int, id: int)
    requires 0 <= lo <= |items| && IsSelection(sel, lo, |items|)
    ensures CountSelected(items, sel, id) <= CountOf(items[lo..], id)
  {
    if sel != [] {
      var k := sel[0];
      TailIsSelection(sel, lo, |items|);
      SelectedAtMostAvailable(items, sel[1..], k + 1, id);
      assert items[k..][1..] == items[k + 1..];
      CountSuffix(items, lo, k, id);
    }
  }
}
