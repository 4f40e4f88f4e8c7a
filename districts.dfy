/** The top-district views of scenarios 4 and 5 (phonepe_dashgit.py lines 212-235): the
    summed Amount of each district of the chosen state and year, fifteen largest first. */
module Districts {
  import opened Selection
  import opened Grouping

  /** How many districts the district views keep (nlargest(15)). */
  const TopDistrictCount: nat := 15

  /** A row of either district file (transactions or insurance). */
  datatype DistrictRow = DistrictRow(state: string, year: int, district: string, amount: real)

  /** One bar of a top-district chart. */
  datatype DistrictTotal = DistrictTotal(district: string, amount: real)

  function InYearState(year: int, state: string): DistrictRow -> bool
  {
    (r: DistrictRow) => r.year == year && r.state == state
  }

  /** The rows of one district of the chosen state and year. */
  function InDistrict(year: int, state: string, district: string): DistrictRow -> bool
  {
    (r: DistrictRow) => r.year == year && r.state == state && r.district == district
  }

  function DistrictAmount(r: DistrictRow): Totals
  {
    Totals(r.amount, 0.0)
  }

  function ByDistrict(r: DistrictRow): Entry<string>
  {
    Entry(r.district, DistrictAmount(r))
  }

  /** groupby("District")["Amount"].sum() over the chosen year and state. */
  function DistrictGroups(rows: seq<DistrictRow>, year: int, state: string): seq<Entry<string>>
  {
    GroupSum(Observe(Filter(rows, InYearState(year, state)), ByDistrict))
  }

  /** nlargest(15, "Amount") of the district groups. */
  function TopDistrictGroups(rows: seq<DistrictRow>, year: int, state: string): seq<Entry<string>>
  {
    TopN(DistrictGroups(rows, year, state), ByGroupAmount, TopDistrictCount)
  }

  /** Lines 217-218 (and 234-235): the 15 districts with the largest summed Amount, at most
      15 of them, no district twice, largest amount first. */
  function TopDistricts(rows: seq<DistrictRow>, year: int, state: string): (r: seq<DistrictTotal>)
    ensures |r| <= TopDistrictCount
    ensures forall i, j :: 0 <= i < j < |r| ==> r[i].district != r[j].district
    ensures forall i, j :: 0 <= i < j < |r| ==> r[i].amount >= r[j].amount
  {
    var top := TopDistrictGroups(rows, year, state);
    TopDistrictGroupsShape(rows, year, state);
    seq(|top|, i requires 0 <= i < |top| => DistrictTotal(top[i].key, top[i].totals.amount))
  }

  /** The bars are the top groups' districts and amounts, in the same positions. */
  lemma TopDistrictsBars(rows: seq<DistrictRow>, year: int, state: string)
    ensures var r, top := TopDistricts(rows, year, state), TopDistrictGroups(rows, year, state);
            |r| == |top| && forall i :: 0 <= i < |top| ==> r[i].district == top[i].key && r[i].amount == top[i].totals.amount
  {
  }

  /** The top groups: at most 15, no key twice, amounts non-increasing. */
  lemma TopDistrictGroupsShape(rows: seq<DistrictRow>, year: int, state: string)
    ensures var top := TopDistrictGroups(rows, year, state);
            && |top| <= TopDistrictCount
            && (forall i, j :: 0 <= i < j < |top| ==> top[i].key != top[j].key)
            && (forall i, j :: 0 <= i < j < |top| ==> top[i].totals.amount >= top[j].totals.amount)
  {
    var top := TopDistrictGroups(rows, year, state);
    TopDistrictGroupsDistinct(rows, year, state);
    assert forall i, j :: 0 <= i < j < |top| ==> Outranks(ByGroupAmount(top[i]), ByGroupAmount(top[j]));
  }

  /** The summed Amount of one district in the chosen state and year. */
  function DistrictSum(rows: seq<DistrictRow>, year: int, state: string, district: string): real
  {
    SumOf(rows, InDistrict(year, state, district), DistrictAmount).amount
  }

  lemma TopDistrictGroupsDistinct(rows: seq<DistrictRow>, year: int, state: string)
    ensures DistinctKeys(TopDistrictGroups(rows, year, state))
  {
    GroupsOfRows(Filter(rows, InYearState(year, state)), ByDistrict);
    DistinctKeysOfSubmultiset(TopDistrictGroups(rows, year, state), DistrictGroups(rows, year, state));
  }

  /** A district group comes from rows of the chosen state and year and holds the summed
      Amount of that district's rows. */
  lemma DistrictGroupTotal(rows: seq<DistrictRow>, year: int, state: string, j: nat)
    requires j < |DistrictGroups(rows, year, state)|
    ensures var g := DistrictGroups(rows, year, state)[j];
            && (exists n :: 0 <= n < |rows| && InDistrict(year, state, g.key)(rows[n]))
            && g.totals.amount == DistrictSum(rows, year, state, g.key)
  {
    var d := DistrictGroups(rows, year, state)[j].key;
    FilteredGroupRow(rows, InYearState(year, state), ByDistrict, j);
    FilteredGroupTotals(rows, InYearState(year, state), ByDistrict, j, InDistrict(year, state, d), DistrictAmount);
  }

  lemma TopDistrictTotal(rows: seq<DistrictRow>, year: int, state: string, i: nat)
    requires i < |TopDistrictGroups(rows, year, state)|
    ensures var g := TopDistrictGroups(rows, year, state)[i];
            && (exists n :: 0 <= n < |rows| && InDistrict(year, state, g.key)(rows[n]))
            && g.totals.amount == DistrictSum(rows, year, state, g.key)
  {
    var groups := DistrictGroups(rows, year, state);
    var top := TopDistrictGroups(rows, year, state);
    ElementOfSubmultiset(top, groups, i);
    var j :| 0 <= j < |groups| && groups[j] == top[i];
    DistrictGroupTotal(rows, year, state, j);
  }

  /** Each returned district has rows in the chosen state and year, and its amount is the
      sum of Amount over them. */
  lemma TopDistrictsTotals(rows: seq<DistrictRow>, year: int, state: string)
    ensures var r := TopDistricts(rows, year, state);
            forall i :: 0 <= i < |r| ==>
              && (exists n :: 0 <= n < |rows| && InDistrict(year, state, r[i].district)(rows[n]))
              && r[i].amount == DistrictSum(rows, year, state, r[i].district)
  {
    TopDistrictsBars(rows, year, state);
    forall i | 0 <= i < |TopDistrictGroups(rows, year, state)| {
      TopDistrictTotal(rows, year, state, i);
    }
  }

  /** A district of the chosen state and year that is not among the returned groups is
      left out only when 15 are returned, and ranks no higher than any of them. */
  lemma DistrictOmitted(rows: seq<DistrictRow>, year: int, state: string, n: nat)
    requires n < |rows| && InYearState(year, state)(rows[n])
    requires forall i :: 0 <= i < |TopDistrictGroups(rows, year, state)| ==>
               TopDistrictGroups(rows, year, state)[i].key != rows[n].district
    ensures var top := TopDistrictGroups(rows, year, state);
            && |top| == TopDistrictCount
            && forall i :: 0 <= i < |top| ==> top[i].totals.amount >= DistrictSum(rows, year, state, rows[n].district)
  {
    var groups := DistrictGroups(rows, year, state);
    var top := TopDistrictGroups(rows, year, state);
    FilteredRowGroup(rows, InYearState(year, state), ByDistrict, n);
    var j :| 0 <= j < |groups| && groups[j].key == ByDistrict(rows[n]).key;
    var g := groups[j];
    assert g !in top by {
      assert forall i :: 0 <= i < |top| ==> top[i].key != g.key;
    }
    DistrictGroupTotal(rows, year, state, j);
    TopNOmitted(groups, ByGroupAmount, TopDistrictCount, g);
    forall i | 0 <= i < |top|
      ensures top[i].totals.amount >= g.totals.amount
    {
      assert top[i] in top;
    }
  }

  /** A district of the chosen state and year that is not shown can only be left out when
      15 are shown, and its summed Amount is no larger than any shown one. */
  lemma TopDistrictsOmitted(rows: seq<DistrictRow>, year: int, state: string)
    ensures var r := TopDistricts(rows, year, state);
            forall n :: 0 <= n < |rows| && InYearState(year, state)(rows[n])
                        && (forall i :: 0 <= i < |r| ==> r[i].district != rows[n].district) ==>
              && |r| == TopDistrictCount
              && forall i :: 0 <= i < |r| ==> r[i].amount >= DistrictSum(rows, year, state, rows[n].district)
  {
    var r := TopDistricts(rows, year, state);
    TopDistrictsBars(rows, year, state);
    forall n | 0 <= n < |rows| && InYearState(year, state)(rows[n])
               && (forall i :: 0 <= i < |r| ==> r[i].district != rows[n].district)
      ensures |r| == TopDistrictCount
      ensures forall i :: 0 <= i < |r| ==> r[i].amount >= DistrictSum(rows, year, state, rows[n].district)
    {
      DistrictOmitted(rows, year, state, n);
    }
  }
}
