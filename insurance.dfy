/** The insurance views of scenario 3 (phonepe_dashgit.py lines 180-194): a yearly trend
    for one state or for all of them, and the state-wise totals of one year. */
module Insurance {
  import opened Selection
  import opened Grouping

  /** A row of the insurance file. */
  datatype InsRow = InsRow(state: string, year: int, count: real, amount: real)

  function InsMeasures(r: InsRow): Totals
  {
    Totals(r.amount, r.count)
  }

  function InsByYear(r: InsRow): Entry<int>
  {
    Entry(r.year, InsMeasures(r))
  }

  function InsByState(r: InsRow): Entry<string>
  {
    Entry(r.state, InsMeasures(r))
  }

  function OfState(state: string): InsRow -> bool
  {
    (r: InsRow) => r.state == state
  }

  function InYear(year: int): InsRow -> bool
  {
    (r: InsRow) => r.year == year
  }

  /** Whether a row is charted for the chosen state: every row is for "All States". */
  function Charted(state: string): InsRow -> bool
  {
    (r: InsRow) => state == AllStates || r.state == state
  }

  /** The rows of one year that are charted for the chosen state. */
  function InYearScope(year: int, state: string): InsRow -> bool
  {
    (r: InsRow) => r.year == year && (state == AllStates || r.state == state)
  }

  /** The rows of one state in one year. */
  function InStateYear(state: string, year: int): InsRow -> bool
  {
    (r: InsRow) => r.state == state && r.year == year
  }

  /** Lines 180-183: Count and Amount summed per Year, over every row for "All States",
      otherwise over the chosen state's rows. */
  function InsuranceTrend(ins: seq<InsRow>, state: string): seq<Entry<int>>
  {
    if state == AllStates then GroupSum(Observe(ins, InsByYear))
    else GroupSum(Observe(Filter(ins, OfState(state)), InsByYear))
  }

  /** Both branches group the charted rows. */
  lemma InsuranceTrendFiltered(ins: seq<InsRow>, state: string)
    ensures InsuranceTrend(ins, state) == GroupSum(Observe(Filter(ins, Charted(state)), InsByYear))
  {
    if state == AllStates {
      FilterKeepsAll(ins, Charted(state));
    } else {
      FilterCongruent(ins, OfState(state), Charted(state));
    }
  }

  /** The trend has one row per Year among the charted rows: all rows for "All States",
      the chosen state's rows otherwise. */
  lemma InsuranceTrendGroups(ins: seq<InsRow>, state: string)
    ensures var r := InsuranceTrend(ins, state);
            && DistinctKeys(r)
            && (forall n :: 0 <= n < |ins| && Charted(state)(ins[n]) ==>
                  exists i :: 0 <= i < |r| && r[i].key == ins[n].year)
            && (forall i :: 0 <= i < |r| ==>
                  exists n :: 0 <= n < |ins| && Charted(state)(ins[n]) && ins[n].year == r[i].key)
  {
    InsuranceTrendFiltered(ins, state);
    GroupsOfRows(Filter(ins, Charted(state)), InsByYear);
    forall n | 0 <= n < |ins| && Charted(state)(ins[n]) {
      FilteredRowGroup(ins, Charted(state), InsByYear, n);
    }
    forall i | 0 <= i < |InsuranceTrend(ins, state)| {
      FilteredGroupRow(ins, Charted(state), InsByYear, i);
    }
  }

  lemma InsuranceYearTotals(ins: seq<InsRow>, state: string, i: nat)
    requires i < |InsuranceTrend(ins, state)|
    ensures var e := InsuranceTrend(ins, state)[i];
            e.totals == SumOf(ins, InYearScope(e.key, state), InsMeasures)
  {
    InsuranceTrendFiltered(ins, state);
    var y := InsuranceTrend(ins, state)[i].key;
    FilteredGroupTotals(ins, Charted(state), InsByYear, i, InYearScope(y, state), InsMeasures);
  }

  /** Each trend row holds Count and Amount summed over that year's charted rows. */
  lemma InsuranceTrendTotals(ins: seq<InsRow>, state: string)
    ensures var r := InsuranceTrend(ins, state);
            forall i :: 0 <= i < |r| ==> r[i].totals == SumOf(ins, InYearScope(r[i].key, state), InsMeasures)
  {
    forall i | 0 <= i < |InsuranceTrend(ins, state)| {
      InsuranceYearTotals(ins, state, i);
    }
  }

  /** A year of one state's trend is a year of the "All States" trend. */
  lemma AllStatesYear(ins: seq<InsRow>, state: string, i: nat) returns (j: nat)
    requires i < |InsuranceTrend(ins, state)|
    ensures j < |InsuranceTrend(ins, AllStates)|
    ensures InsuranceTrend(ins, AllStates)[j].key == InsuranceTrend(ins, state)[i].key
  {
    var y := InsuranceTrend(ins, state)[i].key;
    InsuranceTrendFiltered(ins, state);
    FilteredGroupRow(ins, Charted(state), InsByYear, i);
    var n :| 0 <= n < |ins| && Charted(state)(ins[n]) && InsByYear(ins[n]).key == y;
    var all := InsuranceTrend(ins, AllStates);
    InsuranceTrendFiltered(ins, AllStates);
    FilteredRowGroup(ins, Charted(AllStates), InsByYear, n);
    j :| 0 <= j < |all| && all[j].key == InsByYear(ins[n]).key;
  }

  lemma InsuranceYearDominated(ins: seq<InsRow>, state: string, i: nat) returns (j: nat)
    requires forall n :: 0 <= n < |ins| ==> ins[n].amount >= 0.0 && ins[n].count >= 0.0
    requires i < |InsuranceTrend(ins, state)|
    ensures var e, all := InsuranceTrend(ins, state)[i], InsuranceTrend(ins, AllStates);
            && j < |all| && all[j].key == e.key
            && all[j].totals.amount >= e.totals.amount
            && all[j].totals.count >= e.totals.count
  {
    j := AllStatesYear(ins, state, i);
    var y := InsuranceTrend(ins, state)[i].key;
    InsuranceYearTotals(ins, state, i);
    InsuranceYearTotals(ins, AllStates, j);
    SumOfMonotone(ins, InYearScope(y, state), InYearScope(y, AllStates), InsMeasures);
  }

  /** The year of `one[i]` is a year of `all`, with at least the same Count and Amount. */
  predicate DominatesAt(all: seq<Entry<int>>, one: seq<Entry<int>>, i: nat)
    requires i < |one|
  {
    exists j :: 0 <= j < |all| && all[j].key == one[i].key
                && all[j].totals.amount >= one[i].totals.amount
                && all[j].totals.count >= one[i].totals.count
  }

  /** Every year of `one` is a year of `all`, with at least the same Count and Amount. */
  predicate Dominates(all: seq<Entry<int>>, one: seq<Entry<int>>)
  {
    forall i :: 0 <= i < |one| ==> DominatesAt(all, one, i)
  }

  /** With non-negative counts and amounts, the "All States" trend has, for every year of a
      single state's trend, at least that state's Count and Amount. */
  lemma InsuranceAllStatesDominates(ins: seq<InsRow>, state: string)
    requires forall n :: 0 <= n < |ins| ==> ins[n].amount >= 0.0 && ins[n].count >= 0.0
    ensures Dominates(InsuranceTrend(ins, AllStates), InsuranceTrend(ins, state))
  {
    var one, all := InsuranceTrend(ins, state), InsuranceTrend(ins, AllStates);
    forall i | 0 <= i < |one| ensures DominatesAt(all, one, i) {
      var j := InsuranceYearDominated(ins, state, i);
    }
  }

  /** Line 191: Count and Amount summed per State over the chosen year's rows. */
  function StatewiseGroups(ins: seq<InsRow>, year: int): seq<Entry<string>>
  {
    GroupSum(Observe(Filter(ins, InYear(year)), InsByState))
  }

  /** Line 194: the state-wise totals, largest Amount first. */
  function StatewiseInsurance(ins: seq<InsRow>, year: int): (r: seq<Entry<string>>)
    ensures multiset(r) == multiset(StatewiseGroups(ins, year))
    ensures forall i, j :: 0 <= i < j < |r| ==> r[i].totals.amount >= r[j].totals.amount
  {
    var sorted := SortDesc(StatewiseGroups(ins, year), ByGroupAmount);
    assert forall i, j :: 0 <= i < j < |sorted| ==> Outranks(ByGroupAmount(sorted[i]), ByGroupAmount(sorted[j]));
    sorted
  }

  lemma StatewiseStateCovered(ins: seq<InsRow>, year: int, n: nat)
    requires n < |ins| && ins[n].year == year
    ensures var r := StatewiseInsurance(ins, year);
            exists i :: 0 <= i < |r| && r[i].key == ins[n].state
  {
    var groups := StatewiseGroups(ins, year);
    var r := StatewiseInsurance(ins, year);
    FilteredRowGroup(ins, InYear(year), InsByState, n);
    var j :| 0 <= j < |groups| && groups[j].key == InsByState(ins[n]).key;
    ElementOfSubmultiset(groups, r, j);
    var i :| 0 <= i < |r| && r[i] == groups[j];
  }

  lemma StatewiseStateTotals(ins: seq<InsRow>, year: int, i: nat)
    requires i < |StatewiseInsurance(ins, year)|
    ensures var e := StatewiseInsurance(ins, year)[i];
            && (exists n :: 0 <= n < |ins| && ins[n].year == year && ins[n].state == e.key)
            && e.totals == SumOf(ins, InStateYear(e.key, year), InsMeasures)
  {
    var groups := StatewiseGroups(ins, year);
    var e := StatewiseInsurance(ins, year)[i];
    ElementOfSubmultiset(StatewiseInsurance(ins, year), groups, i);
    var j :| 0 <= j < |groups| && groups[j] == e;
    FilteredGroupRow(ins, InYear(year), InsByState, j);
    FilteredGroupTotals(ins, InYear(year), InsByState, j, InStateYear(e.key, year), InsMeasures);
  }

  lemma StatewiseDistinct(ins: seq<InsRow>, year: int)
    ensures DistinctKeys(StatewiseInsurance(ins, year))
  {
    GroupsOfRows(Filter(ins, InYear(year)), InsByState);
    DistinctKeysOfSubmultiset(StatewiseInsurance(ins, year), StatewiseGroups(ins, year));
  }

  /** The state-wise chart has one bar per state with rows in the chosen year, each holding
      that state's Count and Amount summed over that year. */
  lemma StatewiseInsuranceCorrect(ins: seq<InsRow>, year: int)
    ensures var r := StatewiseInsurance(ins, year);
            && DistinctKeys(r)
            && (forall n :: 0 <= n < |ins| && ins[n].year == year ==> exists i :: 0 <= i < |r| && r[i].key == ins[n].state)
            && (forall i :: 0 <= i < |r| ==> exists n :: 0 <= n < |ins| && ins[n].year == year && ins[n].state == r[i].key)
            && (forall i :: 0 <= i < |r| ==> r[i].totals == SumOf(ins, InStateYear(r[i].key, year), InsMeasures))
  {
    StatewiseDistinct(ins, year);
    forall n | 0 <= n < |ins| && ins[n].year == year {
      StatewiseStateCovered(ins, year, n);
    }
    forall i | 0 <= i < |StatewiseInsurance(ins, year)| {
      StatewiseStateTotals(ins, year, i);
    }
  }
}
