/** The queries behind the dashboard's views (phonepe_dashgit.py): the state/quarter
    aggregate and its table, the payment-category views of scenario 1 and the device
    selection of scenario 2. The chosen widget values are plain parameters. */
module Dashboard {
  import opened Wrappers
  import opened Text
  import opened Selection
  import opened Grouping
  import opened Normalize

  /** The first entry of the state selectors that offer every state at once. */

  // ===========================================================================
  // The state/quarter aggregate (lines 22-27)
  // ===========================================================================

  datatype StateQuarter = StateQuarter(state: string, year: int, quarter: int)

  /** One row of agg: the group key, the two totals, the average and the period label. */
  datatype AggRow = AggRow(state: string, year: int, quarter: int, totalAmount: real,
                           totalCount: real, avgTransaction: Option<real>, period: string)

  function KeyOf(a: AggRow): StateQuarter
  {
    StateQuarter(a.state, a.year, a.quarter)
  }

  function ByStateQuarter(t: Txn): Entry<StateQuarter>
  {
    Entry(StateQuarter(t.state, t.year, t.quarter), Totals(t.amount, t.count))
  }

  /** The rows of one state, year and quarter. */
  function InStateQuarter(k: StateQuarter): Txn -> bool
  {
    (t: Txn) => t.state == k.state && t.year == k.year && t.quarter == k.quarter
  }

  function TxnMeasures(t: Txn): Totals
  {
    Totals(t.amount, t.count)
  }

  /** Total_Amount / Total_Count, undefined when the count is zero. */
  function Average(t: Totals): (r: Option<real>)
    ensures r.None? <==> t.count == 0.0
    ensures r.Some? ==> r.value * t.count == t.amount
  {
    if t.count == 0.0 then None else Some(t.amount / t.count)
  }

  /** A finished group with its derived columns. */
  function AggRowOf(g: Entry<StateQuarter>): AggRow
  {
    AggRow(g.key.state, g.key.year, g.key.quarter, g.totals.amount, g.totals.count,
           Average(g.totals), PeriodLabel(g.key.year, g.key.quarter))
  }

  function DeriveColumns(groups: seq<Entry<StateQuarter>>): seq<AggRow>
  {
    seq(|groups|, i requires 0 <= i < |groups| => AggRowOf(groups[i]))
  }

  /** agg as the dashboard builds it from the normalised frame. */
  function AggTable(df: seq<Txn>): seq<AggRow>
  {
    DeriveColumns(GroupSum(Observe(df, ByStateQuarter)))
  }

  /** Lines 22-27: group and sum, then add Avg_Transaction and Period to every group. */
  method BuildAgg(df: seq<Txn>) returns (agg: seq<AggRow>)
    ensures agg == AggTable(df)
  {
    var groups := GroupSum(Observe(df, ByStateQuarter));
    agg := [];
    var i := 0;
    while i < |groups|
      invariant 0 <= i <= |groups|
      invariant |agg| == i
      invariant forall k :: 0 <= k < i ==> agg[k] == AggRowOf(groups[k])
    {
      agg := agg + [AggRowOf(groups[i])];
      i := i + 1;
    }
  }

  /** The amount and count columns of a frame, summed. */
  function FrameTotals(df: seq<Txn>): Totals
  {
    if df == [] then Zero else TxnMeasures(df[0]).Plus(FrameTotals(df[1..]))
  }

  /** Total_Amount and Total_Count of agg, summed over its rows. */
  function AggTotals(agg: seq<AggRow>): Totals
  {
    if agg == [] then Zero else Totals(agg[0].totalAmount, agg[0].totalCount).Plus(AggTotals(agg[1..]))
  }

  lemma {:induction false} FrameTotalsObserved(df: seq<Txn>)
    ensures Sum(Observe(df, ByStateQuarter)) == FrameTotals(df)
  {
    if df != [] {
      assert Observe(df, ByStateQuarter)[1..] == Observe(df[1..], ByStateQuarter);
      FrameTotalsObserved(df[1..]);
    }
  }

  lemma {:induction false} AggTotalsDerived(groups: seq<Entry<StateQuarter>>)
    ensures AggTotals(DeriveColumns(groups)) == Sum(groups)
  {
    if groups != [] {
      assert DeriveColumns(groups)[1..] == DeriveColumns(groups[1..]);
      AggTotalsDerived(groups[1..]);
    }
  }

  lemma AggTableKeys(df: seq<Txn>)
    ensures var groups := GroupSum(Observe(df, ByStateQuarter));
            |AggTable(df)| == |groups| && forall i :: 0 <= i < |groups| ==> KeyOf(AggTable(df)[i]) == groups[i].key
  {
  }

  /** agg has exactly one row per (State, Year, Quarter) present in the frame. */
  lemma AggTableGroups(df: seq<Txn>)
    ensures var agg := AggTable(df);
            && (forall i, j :: 0 <= i < j < |agg| ==> KeyOf(agg[i]) != KeyOf(agg[j]))
            && (forall n :: 0 <= n < |df| ==> exists i :: 0 <= i < |agg| && KeyOf(agg[i]) == ByStateQuarter(df[n]).key)
            && (forall i :: 0 <= i < |agg| ==> exists n :: 0 <= n < |df| && ByStateQuarter(df[n]).key == KeyOf(agg[i]))
  {
    GroupsOfRows(df, ByStateQuarter);
    AggTableKeys(df);
  }

  /** Each row's Total_Amount and Total_Count are the sums over that state's rows of that
      quarter, and its Avg_Transaction is their ratio, absent when the count is 0. */
  lemma AggTableTotals(df: seq<Txn>)
    ensures var agg := AggTable(df);
            forall i :: 0 <= i < |agg| ==>
              && Totals(agg[i].totalAmount, agg[i].totalCount) == SumOf(df, InStateQuarter(KeyOf(agg[i])), TxnMeasures)
              && (agg[i].avgTransaction.None? <==> agg[i].totalCount == 0.0)
              && (agg[i].avgTransaction.Some? ==>
                    agg[i].avgTransaction.value * agg[i].totalCount == agg[i].totalAmount)
  {
    var groups := GroupSum(Observe(df, ByStateQuarter));
    var agg := AggTable(df);
    forall i | 0 <= i < |agg|
      ensures Totals(agg[i].totalAmount, agg[i].totalCount) == SumOf(df, InStateQuarter(KeyOf(agg[i])), TxnMeasures)
    {
      assert KeyOf(agg[i]) == groups[i].key;
      GroupTotalsOfRows(df, ByStateQuarter, i, InStateQuarter(groups[i].key), TxnMeasures);
    }
  }

  /** The Total_Amount values over all of agg add up to the frame's Transaction_amount total,
      and the Total_Count values to its Transaction_count total. */
  lemma AggTableConserves(df: seq<Txn>)
    ensures AggTotals(AggTable(df)) == FrameTotals(df)
  {
    GroupSumCorrect(Observe(df, ByStateQuarter));
    AggTotalsDerived(GroupSum(Observe(df, ByStateQuarter)));
    FrameTotalsObserved(df);
  }

  /** Aggregate rows carry the same label as the normalised rows of their group. */
  lemma AggTablePeriods(df: seq<Txn>)
    requires forall t :: t in df ==> t.period == PeriodLabel(t.year, t.quarter)
    ensures var agg := AggTable(df);
            forall i, t :: 0 <= i < |agg| && t in df && ByStateQuarter(t).key == KeyOf(agg[i]) ==>
              agg[i].period == t.period
  {
  }

  /** Two Goa rows of the same quarter make one aggregate row: 150 over 15, average 10. */
  lemma GoaExample()
    ensures AggTable([Txn("Goa", 2023, 1, "Recharge", 100.0, 10.0, "2023-Q1"),
                      Txn("Goa", 2023, 1, "Recharge", 50.0, 5.0, "2023-Q1")])
            == [AggRow("Goa", 2023, 1, 150.0, 15.0, Some(10.0), "2023-Q1")]
  {
    var g := Entry(StateQuarter("Goa", 2023, 1), Totals(150.0, 15.0));
    GoaGroup();
    GoaLabel();
    assert Average(g.totals) == Some(10.0);
    assert DeriveColumns([g]) == [AggRowOf(g)];
  }

  /** The two Goa rows fall into one group holding their sums. */
  lemma GoaGroup()
    ensures GroupSum(Observe([Txn("Goa", 2023, 1, "Recharge", 100.0, 10.0, "2023-Q1"),
                              Txn("Goa", 2023, 1, "Recharge", 50.0, 5.0, "2023-Q1")], ByStateQuarter))
            == [Entry(StateQuarter("Goa", 2023, 1), Totals(150.0, 15.0))]
  {
    var t1 := Txn("Goa", 2023, 1, "Recharge", 100.0, 10.0, "2023-Q1");
    var t2 := Txn("Goa", 2023, 1, "Recharge", 50.0, 5.0, "2023-Q1");
    var k := StateQuarter("Goa", 2023, 1);
    var e1, e2 := Entry(k, Totals(100.0, 10.0)), Entry(k, Totals(50.0, 5.0));
    assert Observe([t1, t2], ByStateQuarter) == [e1, e2];
    assert AddTo([], e1) == [e1];
    assert AddTo([e1], e2) == [Entry(k, Totals(150.0, 15.0))];
    assert [e1, e2][1..] == [e2];
    assert GroupSum([e1, e2]) == GroupInto([e1], [e2]);
    assert GroupInto([e1], [e2]) == GroupInto([Entry(k, Totals(150.0, 15.0))], []);
  }

  lemma GoaLabel()
    ensures PeriodLabel(2023, 1) == "2023-Q1"
  {
    assert NatToString(2) == "2";
    assert NatToString(20) == "20";
    assert NatToString(202) == "202";
    assert NatToString(2023) == "2023";
  }

  // ===========================================================================
  // The state/quarter map and table (lines 39 and 66)
  // ===========================================================================

  function InQuarter(year: int, quarter: int): AggRow -> bool
  {
    (a: AggRow) => a.year == year && a.quarter == quarter
  }

  /** Line 39: the agg rows of the chosen Year and Quarter, in agg's order. */
  function SelectQuarter(agg: seq<AggRow>, year: int, quarter: int): (r: seq<AggRow>)
    ensures forall i :: 0 <= i < |r| ==> r[i] in agg && r[i].year == year && r[i].quarter == quarter
    ensures forall i :: 0 <= i < |agg| && agg[i].year == year && agg[i].quarter == quarter ==> agg[i] in r
  {
    Filter(agg, InQuarter(year, quarter))
  }

  /** The metric radio button of line 36. */
  datatype Metric = TotalAmount | AvgTransaction

  function MetricValue(a: AggRow, m: Metric): Option<real>
  {
    match m
    case TotalAmount => Some(a.totalAmount)
    case AvgTransaction => a.avgTransaction
  }

  function ByMetric(m: Metric): AggRow -> Option<real>
  {
    (a: AggRow) => MetricValue(a, m)
  }

  /** Line 66: the selected quarter's rows, highest metric first; rows without an average come last. */
  function QuarterTable(agg: seq<AggRow>, year: int, quarter: int, metric: Metric): (r: seq<AggRow>)
    ensures multiset(r) == multiset(SelectQuarter(agg, year, quarter))
    ensures forall i, j :: 0 <= i < j < |r| ==> Outranks(MetricValue(r[i], metric), MetricValue(r[j], metric))
  {
    SortDesc(SelectQuarter(agg, year, quarter), ByMetric(metric))
  }

  // ===========================================================================
  // Scenario 1: payment categories (lines 114-116, 138, 153)
  // ===========================================================================

  /** A row of the chosen Year and Quarter, and of the chosen state unless it is "All States". */
  predicate PaymentMatches(t: Txn, year: int, quarter: int, state: string)
  {
    t.year == year && t.quarter == quarter && (state == AllStates || t.state == state)
  }

  function PaymentFilter(year: int, quarter: int, state: string): Txn -> bool
  {
    (t: Txn) => PaymentMatches(t, year, quarter, state)
  }

  /** Lines 114-116: filter by Year and Quarter, then narrow by State when one is chosen. */
  method SelectPayments(df1: seq<Txn>, year: int, quarter: int, state: string) returns (filtered: seq<Txn>)
    ensures filtered == Filter(df1, PaymentFilter(year, quarter, state))
    ensures forall t :: t in filtered <==> t in df1 && PaymentMatches(t, year, quarter, state)
  {
    var inPeriod := (t: Txn) => t.year == year && t.quarter == quarter;
    filtered := Filter(df1, inPeriod);
    if state != AllStates {
      var inState := (t: Txn) => t.state == state;
      FilterTwice(df1, inPeriod, inState, PaymentFilter(year, quarter, state));
      filtered := Filter(filtered, inState);
    } else {
      FilterCongruent(df1, inPeriod, PaymentFilter(year, quarter, state));
    }
    FilterMembers(df1, PaymentFilter(year, quarter, state));
  }

  function ByAmount(t: Txn): Option<real>
  {
    Some(t.amount)
  }

  /** Line 153: the filtered rows by Transaction_amount, largest first. */
  function PaymentTable(filtered: seq<Txn>): (r: seq<Txn>)
    ensures multiset(r) == multiset(filtered)
    ensures forall i, j :: 0 <= i < j < |r| ==> r[i].amount >= r[j].amount
  {
    var sorted := SortDesc(filtered, ByAmount);
    assert forall i, j :: 0 <= i < j < |sorted| ==> Outranks(ByAmount(sorted[i]), ByAmount(sorted[j]));
    sorted
  }

  /** One point of the nationwide category trend. */
  datatype TrendPoint = TrendPoint(period: string, txnType: string, amount: real)

  function ByPeriodType(t: Txn): Entry<(string, string)>
  {
    Entry((t.period, t.txnType), Totals(t.amount, 0.0))
  }

  /** The rows of one period and payment category. */
  function InPeriodType(period: string, txnType: string): Txn -> bool
  {
    (t: Txn) => t.period == period && t.txnType == txnType
  }

  function AmountOnly(t: Txn): Totals
  {
    Totals(t.amount, 0.0)
  }

  /** Line 138: Transaction_amount summed per (Period, Transaction_type) over the whole frame. */
  function NationalTrend(df1: seq<Txn>): seq<TrendPoint>
  {
    var groups := GroupSum(Observe(df1, ByPeriodType));
    seq(|groups|, i requires 0 <= i < |groups| => TrendPoint(groups[i].key.0, groups[i].key.1, groups[i].totals.amount))
  }

  lemma NationalTrendKeys(df1: seq<Txn>)
    ensures var groups := GroupSum(Observe(df1, ByPeriodType));
            |NationalTrend(df1)| == |groups| &&
            forall i :: 0 <= i < |groups| ==>
              (NationalTrend(df1)[i].period, NationalTrend(df1)[i].txnType) == groups[i].key &&
              NationalTrend(df1)[i].amount == groups[i].totals.amount
  {
  }

  /** The trend has one point per (Period, Transaction_type) occurring in the frame. */
  lemma NationalTrendGroups(df1: seq<Txn>)
    ensures var r := NationalTrend(df1);
            && (forall i, j :: 0 <= i < j < |r| ==> (r[i].period, r[i].txnType) != (r[j].period, r[j].txnType))
            && (forall n :: 0 <= n < |df1| ==>
                  exists i :: 0 <= i < |r| && (r[i].period, r[i].txnType) == (df1[n].period, df1[n].txnType))
            && (forall i :: 0 <= i < |r| ==>
                  exists n :: 0 <= n < |df1| && (df1[n].period, df1[n].txnType) == (r[i].period, r[i].txnType))
  {
    GroupsOfRows(df1, ByPeriodType);
    NationalTrendKeys(df1);
  }

  /** Each point holds the sum of that category's Transaction_amount in that period. */
  lemma NationalTrendTotals(df1: seq<Txn>)
    ensures var r := NationalTrend(df1);
            forall i :: 0 <= i < |r| ==>
              r[i].amount == SumOf(df1, InPeriodType(r[i].period, r[i].txnType), AmountOnly).amount
  {
    var groups := GroupSum(Observe(df1, ByPeriodType));
    var r := NationalTrend(df1);
    NationalTrendKeys(df1);
    forall i | 0 <= i < |r|
      ensures r[i].amount == SumOf(df1, InPeriodType(r[i].period, r[i].txnType), AmountOnly).amount
    {
      GroupTotalsOfRows(df1, ByPeriodType, i, InPeriodType(r[i].period, r[i].txnType), AmountOnly);
    }
  }

  // ===========================================================================
  // Scenario 2: device share (line 165)
  // ===========================================================================

  /** A row of the users file. */
  datatype UserRow = UserRow(state: string, year: int, brand: string, count: real)

  /** Line 165: the rows of the chosen State and Year, in file order. */
  function SelectDevices(users: seq<UserRow>, state: string, year: int): (r: seq<UserRow>)
    ensures forall i :: 0 <= i < |r| ==> r[i] in users && r[i].state == state && r[i].year == year
    ensures forall i :: 0 <= i < |users| && users[i].state == state && users[i].year == year ==> users[i] in r
  {
    Filter(users, (u: UserRow) => u.state == state && u.year == year)
  }

}
