/** Handling of the per-project constraints before the search: the forced
    pre-purchase pass and the generation of unit-slots for the search. */
module Preallocation {
  import opened Catalog
  import opened Items

  /** The constraint of a project; a project the map does not mention is `Auto`. */
  function ConstraintOf(constraints: map<int, Constraint>, id: int): Constraint {
    if id in constraints then constraints[id] else Auto
  }

  /** Units recorded for a project; a project the map does not mention has none. */
  function UnitsOf(units: map<int, int>, id: int): int {
    if id in units then units[id] else 0
  }

  /** State of the forced pre-purchase pass: the budget left, the unit map, and
      the cost and NPV of what has been bought. */
  datatype Baseline = Baseline(budget: int, units: map<int, int>, cost: int, npv: int)

  /** One project's turn: a forced project that still fits the remaining
      budget is bought once. */
  function ForceStep(b: Baseline, p: Project, constraints: map<int, Constraint>): Baseline {
    if ConstraintOf(constraints, p.id) == Force && b.budget >= p.cost then
      Baseline(b.budget - p.cost, b.units[p.id := 1], b.cost + p.cost, b.npv + p.npv)
    else b
  }

  /** The forced pre-purchase pass over the catalog, in catalog order. The cost
      bought and the budget left always add up to the budget; a nonnegative
      budget stays nonnegative; and only forced projects of the catalog are
      bought, one unit each. */
  function PrePurchase(catalog: seq<Project>, constraints: map<int, Constraint>, budget: int): (r: Baseline)
    ensures r.cost + r.budget == budget
    ensures budget >= 0 ==> r.budget >= 0
    ensures forall id :: id in r.units ==>
              r.units[id] == 1 && ConstraintOf(constraints, id) == Force && id in IdsOf(catalog)
    decreases |catalog|
  {
    if catalog == [] then Baseline(budget, map[], 0, 0)
    else
      var last := catalog[|catalog| - 1];
      var before := PrePurchase(catalog[..|catalog| - 1], constraints, budget);
      assert forall id :: id in IdsOf(catalog[..|catalog| - 1]) ==> id in IdsOf(catalog) by {
        forall id | id in IdsOf(catalog[..|catalog| - 1])
          ensures id in IdsOf(catalog)
        {
          var p :| p in catalog[..|catalog| - 1] && p.id == id;
          assert p in catalog;
        }
      }
      assert last in catalog;
      ForceStep(before, last, constraints)
  }

  /** An id of a catalog with distinct ids occurs in no shorter prefix that
      stops before its entry. */
  lemma IdNotInEarlierPrefix(catalog: seq<Project>, i: int)
    requires DistinctIds(catalog) && 0 <= i < |catalog|
    ensures catalog[i].id !in IdsOf(catalog[..i])
  {
    forall p | p in catalog[..i]
      ensures p.id != catalog[i].id
    {
      var k :| 0 <= k < i && catalog[..i][k] == p;
      assert catalog[k] == p;
    }
  }

  /** A forced project is bought exactly when its cost fits the budget left
      after the projects before it; every other project gets nothing here. */
  lemma {:induction false} PrePurchaseTurn(catalog: seq<Project>, constraints: map<int, Constraint>,
                                           budget: int, i: int)
    requires DistinctIds(catalog) && 0 <= i < |catalog|
    ensures UnitsOf(PrePurchase(catalog, constraints, budget).units, catalog[i].id)
            == if ConstraintOf(constraints, catalog[i].id) == Force
                  && catalog[i].cost <= PrePurchase(catalog[..i], constraints, budget).budget
               then 1 else 0
    decreases |catalog|
  {
    var n := |catalog|;
    var prefix := catalog[..n - 1];
    if i == n - 1 {
      IdNotInEarlierPrefix(catalog, i);
    } else {
      assert prefix[..i] == catalog[..i];
      assert DistinctIds(prefix);
      PrePurchaseTurn(prefix, constraints, budget, i);
      assert catalog[n - 1].id != catalog[i].id;
    }
  }

  /** `k` copies of slot `s`. */
  function Repeat(s: Slot, k: nat): (r: seq<Slot>)
    ensures |r| == k
  {
    if k == 0 then [] else [s] + Repeat(s, k - 1)
  }

  /** Every copy is `s`. */
  lemma {:induction false} RepeatMembers(s: Slot, k: nat)
    ensures forall x :: x in Repeat(s, k) ==> x == s
  {
    if k > 0 {
      RepeatMembers(s, k - 1);
    }
  }

  /** The slots of one project: none when it is excluded, otherwise one per
      unit it may still gain, provided it has a positive cost. */
  function SlotsFor(p: Project, constraints: map<int, Constraint>, units: map<int, int>,
                    maxUnits: int): (r: seq<Slot>)
    ensures |r| == Allowance(p, constraints, units, maxUnits)
  {
    if ConstraintOf(constraints, p.id) == Exclude then []
    else
      var remainingMaxUnits := maxUnits - UnitsOf(units, p.id);
      if p.cost > 0 && remainingMaxUnits > 0 then
        Repeat(Slot(p.id, p.cost, p.npv, p.npv as real / p.cost as real), remainingMaxUnits)
      else []
  }

  /** The slots of the whole catalog, project by project in catalog order. */
  function BuildSlots(catalog: seq<Project>, constraints: map<int, Constraint>, units: map<int, int>,
                      maxUnits: int): seq<Slot>
  {
    if catalog == [] then []
    else SlotsFor(catalog[0], constraints, units, maxUnits)
         + BuildSlots(catalog[1..], constraints, units, maxUnits)
  }

  /** How many slots a project receives: none when excluded or free, else
      the cap minus what it already holds (never below zero). */
  function Allowance(p: Project, constraints: map<int, Constraint>, units: map<int, int>,
                     maxUnits: int): nat
  {
    if ConstraintOf(constraints, p.id) == Exclude || p.cost <= 0 then 0
    else if maxUnits - UnitsOf(units, p.id) > 0 then maxUnits - UnitsOf(units, p.id)
    else 0
  }

  /** A slot made from a catalog entry: it carries that entry's id, cost, NPV
      and efficiency, and the entry has a positive cost. */
  predicate SlotOf(catalog: seq<Project>, s: Slot) {
    exists p :: p in catalog && p.cost > 0 && s == Slot(p.id, p.cost, p.npv, p.npv as real / p.cost as real)
  }

  lemma CountConcat(a: seq<Slot>, b: seq<Slot>, id: int)
    ensures CountOf(a + b, id) == CountOf(a, id) + CountOf(b, id)
  {
    if a == [] {
      assert a + b == b;
    } else {
      assert (a + b)[1..] == a[1..] + b;
      CountConcat(a[1..], b, id);
    }
  }

  lemma {:induction false} CountRepeat(s: Slot, k: nat, id: int)
    ensures CountOf(Repeat(s, k), id) == if s.projectId == id then k else 0
  {
    if k > 0 {
      assert ([s] + Repeat(s, k - 1))[1..] == Repeat(s, k - 1);
      CountRepeat(s, k - 1, id);
    }
  }

  lemma CountSlotsFor(p: Project, constraints: map<int, Constraint>, units: map<int, int>,
                      maxUnits: int, id: int)
    ensures CountOf(SlotsFor(p, constraints, units, maxUnits), id)
            == if p.id == id then Allowance(p, constraints, units, maxUnits) else 0
  {
    if ConstraintOf(constraints, p.id) != Exclude && p.cost > 0 && maxUnits - UnitsOf(units, p.id) > 0 {
      CountRepeat(Slot(p.id, p.cost, p.npv, p.npv as real / p.cost as real), maxUnits - UnitsOf(units, p.id), id);
    }
  }

  /** Slot generation gives every catalog project exactly its allowance of
      slots, and no slot to an id outside the catalog. */
  lemma {:induction false} SlotCounts(catalog: seq<Project>, constraints: map<int, Constraint>,
                                      units: map<int, int>, maxUnits: int, id: int)
    requires DistinctIds(catalog)
    ensures CountOf(BuildSlots(catalog, constraints, units, maxUnits), id)
            == if exists i :: 0 <= i < |catalog| && catalog[i].id == id
               then Allowance(catalog[FirstIndexOf(catalog, id)], constraints, units, maxUnits)
               else 0
  {
    if catalog != [] {
      var head := catalog[0];
      var tail := catalog[1..];
      CountConcat(SlotsFor(head, constraints, units, maxUnits), BuildSlots(tail, constraints, units, maxUnits), id);
      CountSlotsFor(head, constraints, units, maxUnits, id);
      assert DistinctIds(tail);
      SlotCounts(tail, constraints, units, maxUnits, id);
      if head.id == id {
        assert !exists i :: 0 <= i < |tail| && tail[i].id == id by {
          forall i | 0 <= i < |tail|
            ensures tail[i].id != id
          {
            assert catalog[i + 1] == tail[i];
          }
        }
      } else {
        if exists i :: 0 <= i < |catalog| && catalog[i].id == id {
          var i :| 0 <= i < |catalog| && catalog[i].id == id;
          assert tail[i - 1].id == id;
        }
        if exists i :: 0 <= i < |tail| && tail[i].id == id {
          var i :| 0 <= i < |tail| && tail[i].id == id;
          assert catalog[i + 1].id == id;
        }
      }
    }
  }

  /** An id of the catalog sits at some position of it. */
  lemma Listed(catalog: seq<Project>, id: int)
    requires id in IdsOf(catalog)
    ensures exists i :: 0 <= i < |catalog| && catalog[i].id == id
  {
    var p :| p in catalog && p.id == id;
    var i :| 0 <= i < |catalog| && catalog[i] == p;
    assert catalog[i].id == id;
  }

  /** The position of the first entry with the given id. */
  function FirstIndexOf(catalog: seq<Project>, id: int): (i: int)
    requires exists i :: 0 <= i < |catalog| && catalog[i].id == id
    ensures 0 <= i < |catalog| && catalog[i].id == id
    ensures forall k :: 0 <= k < i ==> catalog[k].id != id
  {
    if catalog[0].id == id then 0
    else
      var i :| 0 <= i < |catalog| && catalog[i].id == id;
      assert catalog[1..][i - 1].id == id;
      1 + FirstIndexOf(catalog[1..], id)
  }

  /** Every generated slot comes from a non-excluded catalog entry with
      positive cost and carries its cost, NPV and efficiency. */
  lemma {:induction false} SlotsComeFromCatalog(catalog: seq<Project>, constraints: map<int, Constraint>,
                                                units: map<int, int>, maxUnits: int)
    ensures forall s :: s in BuildSlots(catalog, constraints, units, maxUnits) ==>
              SlotOf(catalog, s) && ConstraintOf(constraints, s.projectId) != Exclude
  {
    if catalog != [] {
      var head := catalog[0];
      SlotsComeFromCatalog(catalog[1..], constraints, units, maxUnits);
      forall s | s in BuildSlots(catalog, constraints, units, maxUnits)
        ensures SlotOf(catalog, s) && ConstraintOf(constraints, s.projectId) != Exclude
      {
        if s in SlotsFor(head, constraints, units, maxUnits) {
          if ConstraintOf(constraints, head.id) != Exclude && head.cost > 0 && maxUnits - UnitsOf(units, head.id) > 0 {
            RepeatMembers(Slot(head.id, head.cost, head.npv, head.npv as real / head.cost as real),
                          maxUnits - UnitsOf(units, head.id));
          }
          assert head in catalog;
        } else {
          assert s in BuildSlots(catalog[1..], constraints, units, maxUnits);
          var p :| p in catalog[1..] && p.cost > 0 && s == Slot(p.id, p.cost, p.npv, p.npv as real / p.cost as real);
          assert p in catalog;
        }
      }
    }
  }

  /** With nonnegative NPVs every generated slot is well formed, as the
      search's bound needs. */
  lemma SlotsWellFormed(catalog: seq<Project>, constraints: map<int, Constraint>,
                        units: map<int, int>, maxUnits: int)
    requires forall p :: p in catalog ==> p.npv >= 0
    ensures AllWellFormed(BuildSlots(catalog, constraints, units, maxUnits))
  {
    var slots := BuildSlots(catalog, constraints, units, maxUnits);
    SlotsComeFromCatalog(catalog, constraints, units, maxUnits);
    forall i | 0 <= i < |slots|
      ensures WellFormedAt(slots, i)
    {
      assert slots[i] in slots;
    }
  }
}
