/** The efficiency sort: slots in non-increasing value/cost order. The source
    sorts with a comparator on the ratio, and the array sort it uses is stable,
    so equal ratios keep their generation order; insertion that places a slot
    before the first slot of no greater ratio behaves the same way. */
module Sorting {
  import opened Items

  /** Place `x` in front of the first slot whose ratio does not exceed its own. */
  function Insert(x: Slot, s: seq<Slot>): (r: seq<Slot>)
    requires SortedByRatio(s)
    ensures SortedByRatio(r)
    ensures multiset(r) == multiset(s) + multiset{x}
  {
    if s == [] || s[0].ratio <= x.ratio then
      [x] + s
    else
      var t := Insert(x, s[1..]);
      HeadDominates(s[0], x, s[1..], t);
      assert s == [s[0]] + s[1..];
      [s[0]] + t
  }

  lemma CountCons(h: Slot, t: seq<Slot>, id: int)
    ensures CountOf([h] + t, id) == (if h.projectId == id then 1 else 0) + CountOf(t, id)
  {
    assert ([h] + t)[1..] == t;
  }

  /** Inserting a slot adds one to its project's count and leaves the others. */
  lemma {:induction false} InsertCount(x: Slot, s: seq<Slot>, id: int)
    requires SortedByRatio(s)
    ensures CountOf(Insert(x, s), id) == CountOf(s, id) + (if x.projectId == id then 1 else 0)
  {
    if s == [] || s[0].ratio <= x.ratio {
      CountCons(x, s, id);
    } else {
      InsertCount(x, s[1..], id);
      CountCons(s[0], Insert(x, s[1..]), id);
      CountCons(s[0], s[1..], id);
      assert s == [s[0]] + s[1..];
    }
  }

  /** A head whose ratio is at least that of `x` and of every slot of `s` keeps
      sorted any permutation of `s` plus `x`. */
  lemma HeadDominates(h: Slot, x: Slot, s: seq<Slot>, t: seq<Slot>)
    requires SortedByRatio(t) && multiset(t) == multiset(s) + multiset{x}
    requires h.ratio >= x.ratio
    requires forall j :: 0 <= j < |s| ==> h.ratio >= s[j].ratio
    ensures SortedByRatio([h] + t)
  {
    forall k | 0 <= k < |t|
      ensures h.ratio >= t[k].ratio
    {
      assert t[k] in multiset(t);
      if t[k] != x {
        assert t[k] in multiset(s);
      }
    }
  }

  /** The slots reordered by non-increasing efficiency: a permutation of the
      input that keeps every project's number of slots. */
  function SortByRatio(s: seq<Slot>): (r: seq<Slot>)
    ensures SortedByRatio(r)
    ensures multiset(r) == multiset(s)
    ensures |r| == |s|
  {
    if s == [] then []
    else
      assert s == [s[0]] + s[1..];
      Insert(s[0], SortByRatio(s[1..]))
  }

  /** Sorting keeps the number of slots of every project. */
  lemma {:induction false} SortCount(s: seq<Slot>, id: int)
    ensures CountOf(SortByRatio(s), id) == CountOf(s, id)
  {
    if s != [] {
      SortCount(s[1..], id);
      InsertCount(s[0], SortByRatio(s[1..]), id);
      CountCons(s[0], s[1..], id);
      assert s == [s[0]] + s[1..];
    }
  }

  /** Every slot of the sorted sequence is one of the input slots, so any
      property held by all input slots is held by all sorted slots. */
  lemma SortKeepsSlots(s: seq<Slot>)
    ensures forall i :: 0 <= i < |SortByRatio(s)| ==> SortByRatio(s)[i] in s
  {
    var r := SortByRatio(s);
    forall i | 0 <= i < |r|
      ensures r[i] in s
    {
      assert r[i] in multiset(r);
    }
  }
}
