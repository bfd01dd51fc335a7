/** The fixed catalog and the process-wide constants of the optimizer. Each
    entry keeps only the fields the optimizer reads: identifier, acquisition
    cost and NPV of one unit (both in VND). The display fields (name, address,
    distance, rent and the present values the NPV was derived from) pass
    through unread and are not modelled. */
module Catalog {

  datatype Project = Project(id: int, cost: int, npv: int)

  /** The per-project override: let the optimizer decide, never buy, or buy
      one unit up front. */
  datatype Constraint = Auto | Exclude | Force

  /** Annual market rate at which the loan's cash flows are discounted. */
  const DiscountRate: real := 0.047

  /** At most this many units of one project end up in a portfolio. */
  const MaxUnitsPerProject: int := 3

  const Projects: seq<Project> := [
    Project(1, 4_676_470_600, 3_774_806_914),
    Project(2, 6_723_684_199, 4_586_764_292),
    Project(3, 6_664_000_000, 5_134_195_735),
    Project(4, 7_777_777_770, 5_624_119_019),
    Project(5, 9_000_000_020, 6_704_415_299),
    Project(6, 15_809_523_770, 18_782_588_887),
    Project(7, 3_150_000_000, 1_939_215_287),
    Project(8, 4_721_311_488, 2_848_707_021),
    Project(9, 4_399_999_982, 2_991_400_361),
    Project(10, 5_599_999_969, 4_907_538_030),
    Project(11, 3_801_900_000, 2_580_489_496),
    Project(12, 4_008_900_000, 3_064_528_942),
    Project(13, 4_522_000_000, 4_515_815_678),
    Project(14, 6_395_400_000, 6_216_762_771),
    Project(15, 2_499_800_000, 822_176_588),
    Project(16, 3_749_700_000, 1_093_879_532),
    Project(17, 3_263_400_000, 1_995_771_948),
    Project(18, 4_144_000_000, 2_510_418_953),
    Project(19, 2_888_834_310, 1_606_640_492),
    Project(20, 3_345_552_770, 825_989_170),
    Project(21, 3_332_673_234, 1_417_333_918),
    Project(22, 3_169_902_887, 36_483_255),
    Project(23, 1_325_136_000, 168_216_233),
    Project(24, 1_849_095_216, 554_898_813),
    Project(25, 2_380_182_813, 248_358_935),
    Project(26, 3_209_183_636, 1_604_425_012)
  ]

  predicate DistinctIds(catalog: seq<Project>) {
    forall i, j :: 0 <= i < j < |catalog| ==> catalog[i].id != catalog[j].id
  }

  predicate AscendingIds(catalog: seq<Project>) {
    forall i, j :: 0 <= i < j < |catalog| ==> catalog[i].id < catalog[j].id
  }

  function IdsOf(catalog: seq<Project>): set<int> {
    set p | p in catalog :: p.id
  }

  /** The shipped catalog lists ids 1 to 26 in order, so catalog order is id
      order and an id picks out exactly one entry. */
  lemma ShippedIds()
    ensures |Projects| == 26
    ensures forall i :: 0 <= i < |Projects| ==> Projects[i].id == i + 1
    ensures AscendingIds(Projects) && DistinctIds(Projects)
  {
  }

  /** Every shipped entry costs something and is worth something: none is
      dropped by the positive-cost filter of slot generation, and all slot
      values are nonnegative, as the bound's soundness needs. */
  lemma ShippedCostsAndValuesPositive()
    ensures forall p :: p in Projects ==> p.cost > 0 && p.npv > 0
  {
  }

  /** The constants: a cap of three units and a positive discount rate, so the
      monthly discount rate the financing formula divides by is not zero. */
  lemma ShippedConstants()
    ensures MaxUnitsPerProject == 3 && MaxUnitsPerProject >= 1
    ensures DiscountRate > 0.0 && DiscountRate / 12.0 != 0.0
  {
  }
}
