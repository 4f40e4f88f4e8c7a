# PhonePe dashboard pipeline, modelled in Dafny

`phonepe_dashgit.py` is a Streamlit dashboard over PhonePe Pulse CSV extracts. The only
logic it has besides charts and widgets is a small pandas pipeline. This project models that
pipeline and proves what each stage promises. The stages are:

- **Normalisation** (lines 10-17, repeated at 95-101). Year and Quarter are converted to
  integers, and a cell that does not convert is an error. Transaction_amount and
  Transaction_count are coerced to numbers, and a cell that is not a number becomes 0. Each
  row then gets the label `<Year>-Q<Quarter>`.
- **The state/quarter aggregate** `agg` (lines 22-27). The rows are grouped by
  (State, Year, Quarter), and amount and count are summed per group. Avg_Transaction is the
  ratio of the two totals, and the Period label is rebuilt from each group's key.
- **The other group-by-sum views**:
  - the nationwide trend by (Period, Transaction_type), line 138;
  - the insurance totals per Year, for all states or for one state, lines 180-183;
  - the state-wise insurance totals of one year, line 191;
  - the district totals of scenarios 4 and 5, lines 218 and 235.
- **The selectors** (lines 39, 114-116, 165, 217, 234). Each keeps the rows that equal the
  chosen values. "All States" means no state filter.
- **The orderings** (lines 66, 153, 194) sort descending by a metric. `nlargest(15)`
  (lines 218, 235) keeps the fifteen largest district totals.

Modules:

- `Wrappers` holds `Option` and `Result`.
- `Text` holds Python's `int()` grammar, the decimal grammar of `to_numeric`, decimal
  printing and the period label with its inverse.
- `Selection` holds an order-keeping filter, a descending sort, top-N and the "All States" choice.
- `Grouping` is a generic group-by-sum over (key, totals) entries.
- `Normalize` holds the raw-to-typed row conversion. It is imperative: the loaded frame is an
  array, and its columns are converted by loops.
- `Dashboard` holds the aggregate, scenario 1 and scenario 2.
- `Insurance` holds scenario 3.
- `Districts` holds scenarios 4 and 5.

The widget values (year, quarter, state, metric) are ordinary parameters. The CSV files are
given sequences of records.

Other modelling choices:

- Amounts and counts are exact `real`s.
- Avg_Transaction is `Option<real>`: `None` when the group's count is 0, where pandas would
  produce inf or NaN.
- Sort keys are `Option<real>`, and `None` ranks below every number, like NaN, which
  `sort_values` places last.
- Groups come out in order of first appearance. pandas sorts them by key instead, and no
  contract here depends on group order.
- Sorts are specified as "a permutation, in non-increasing order". pandas' default quicksort is
  not stable, so no tie order is promised.

## Model

| member | source | states |
|---|---|---|
| Normalize.Normalize | phonepe_dashgit.py:10-17 | The in-place conversion of the loaded frame (an array) gives exactly the result NormalizeFrame specifies: either the error of the first bad Year cell, then of the first bad Quarter cell, or the converted rows |
| Normalize.ConvertRows | phonepe_dashgit.py:13-17 | The row loop over the loaded array yields, position by position, each raw row with its parsed Year and Quarter, its measures coerced to numbers and its `<Year>-Q<Quarter>` label |
| Normalize.ConvertColumn | phonepe_dashgit.py:11-12 | astype(int) on one column, one cell at a time: either every converted value in order, or the first cell that is not a whole number |
| Normalize.NormalizeKeepsRows | phonepe_dashgit.py:10-17 | Normalisation succeeds iff every Year and Quarter cell is a whole number. On success, each row in the same position keeps its State and Transaction_type, has Year and Quarter parsed and the measures coerced (0 for non-numbers), and is labelled with its own Year and Quarter |
| Normalize.NormalizeErrors | phonepe_dashgit.py:11-12 | A failure names a cell that really fails to parse: a Year cell, or a Quarter cell when every Year cell parsed |
| Text.ParseIntOfIntToString | phonepe_dashgit.py:11-12 | Python's int() grammar reads back every printed integer, negatives included |
| Text.ToNumberOfIntToString | phonepe_dashgit.py:13-14 | to_numeric turns a printed integer into that number, and does not fall back to 0 |
| Text.ToNumberOfFraction | phonepe_dashgit.py:13-14 | to_numeric reads a printed `a.b`, with a and b non-negative integers, as a + b/10^(number of digits of b) |
| Text.UnparseableBecomesZero | phonepe_dashgit.py:13-14 | A cell whose last character is neither a digit nor a dot (such as "N/A") is coerced to 0 |
| Text.NatToStringValue | phonepe_dashgit.py:17 | The digits astype(str) prints for a non-negative integer have that integer as their decimal value |
| Text.NatToStringNoLeadingZero | phonepe_dashgit.py:17 | The printed Year and Quarter digits are unpadded: a printed number starts with '0' only when it is 0 |
| Text.ParsePeriodOfLabel | phonepe_dashgit.py:17 | The period label `<Year>-Q<Quarter>` can be parsed back to the exact Year and Quarter |
| Text.PeriodLabelInjective | phonepe_dashgit.py:27 | Two (Year, Quarter) pairs have the same label iff they are equal |
| Grouping.GroupSumCorrect | phonepe_dashgit.py:22-25 | Group-by-sum gives distinct keys and the same key set as its input. Each group holds its key's total, and the grand total is conserved |
| Grouping.GroupsOfRows | phonepe_dashgit.py:22-25 | Grouping a frame's rows by a key gives one group per key some row has, none twice and none without a row |
| Grouping.FilteredGroupTotals | phonepe_dashgit.py:183 | Grouping a filtered frame: each group's totals are the measures summed over the original rows that pass the filter and have the group's key |
| Grouping.GroupSumIdempotent | phonepe_dashgit.py:22-25 | Grouping an already grouped table changes nothing |
| Grouping.SumOfFilter | phonepe_dashgit.py:183 | Summing over a filtered frame equals summing over the original rows that pass both conditions |
| Grouping.SumOfMonotone | phonepe_dashgit.py:180-183 | With non-negative measures, a wider row selection sums to at least as much amount and count |
| Dashboard.BuildAgg | phonepe_dashgit.py:22-27 | The loop that adds Avg_Transaction and Period to each grouped row yields exactly AggTable |
| Dashboard.Average | phonepe_dashgit.py:26 | Avg_Transaction is undefined iff Total_Count is 0; otherwise it times Total_Count equals Total_Amount |
| Dashboard.AggTableGroups | phonepe_dashgit.py:22-25 | agg has exactly one row per (State, Year, Quarter) present in the frame: no key twice, every key of the frame present, none invented |
| Dashboard.AggTableTotals | phonepe_dashgit.py:22-26 | Each agg row's Total_Amount and Total_Count are the sums over the frame rows with its key, and its average is their ratio, absent for a zero count |
| Dashboard.AggTableConserves | phonepe_dashgit.py:22-25 | The Total_Amount and Total_Count columns summed over agg equal the frame's Transaction_amount and Transaction_count totals |
| Dashboard.AggTablePeriods | phonepe_dashgit.py:27 | An agg row's Period equals the Period of every normalised row in its group |
| Dashboard.GoaExample | phonepe_dashgit.py:22-27 | Two Goa rows of 2023 Q1 (100 over 10 and 50 over 5) become one row: 150, 15, average 10, "2023-Q1" |
| Dashboard.SelectQuarter | phonepe_dashgit.py:39 | The selection holds exactly agg's rows of the chosen Year and Quarter |
| Dashboard.QuarterTable | phonepe_dashgit.py:66 | The table is a permutation of the quarter's rows, ordered non-increasing by the chosen metric, with undefined averages last |
| Dashboard.SelectPayments | phonepe_dashgit.py:114-116 | Filtering by period and then, unless "All States", by State equals a single order-keeping filter on all chosen dimensions. A row is kept iff it matches every one |
| Dashboard.PaymentTable | phonepe_dashgit.py:153 | The filtered rows, permuted, with Transaction_amount non-increasing |
| Dashboard.NationalTrendGroups | phonepe_dashgit.py:138 | One trend point per (Period, Transaction_type) present in df1, with none repeated and none invented |
| Dashboard.NationalTrendTotals | phonepe_dashgit.py:138 | Each trend point's amount is the sum of Transaction_amount over its category's rows of that period |
| Dashboard.SelectDevices | phonepe_dashgit.py:165 | The device rows kept are exactly those of the chosen State and Year |
| Insurance.InsuranceTrendFiltered | phonepe_dashgit.py:180-183 | Both branches (every row for "All States", the chosen state's rows otherwise) group the same charted rows |
| Insurance.InsuranceTrendGroups | phonepe_dashgit.py:180-183 | One trend row per Year among the charted rows, with no year twice and none without a row |
| Insurance.InsuranceTrendTotals | phonepe_dashgit.py:180-183 | Each trend row holds Count and Amount summed over that year's charted rows |
| Insurance.InsuranceAllStatesDominates | phonepe_dashgit.py:180-183 | With non-negative measures, every year of a state's trend appears in the "All States" trend with at least its Count and Amount |
| Insurance.StatewiseInsurance | phonepe_dashgit.py:194 | The state-wise totals, permuted, with Amount non-increasing |
| Insurance.StatewiseInsuranceCorrect | phonepe_dashgit.py:191 | One bar per state with rows in the chosen year, with no state twice. Each bar holds that state's Count and Amount summed over the year |
| Districts.TopDistricts | phonepe_dashgit.py:218 | At most 15 bars, no district shown twice, amounts non-increasing from the first bar on. The same function serves line 235 |
| Districts.TopDistrictsTotals | phonepe_dashgit.py:217-218 | Every shown district has rows of the chosen State and Year, and its amount is the sum of Amount over them |
| Districts.TopDistrictsOmitted | phonepe_dashgit.py:218 | A district of the chosen State and Year is left out only when 15 are shown, and its sum is at most every shown sum |
| Selection.FilterAppend | phonepe_dashgit.py:39 | The boolean-mask filter distributes over concatenation, so it keeps the rows' relative order |
| Selection.FilterMembers | phonepe_dashgit.py:165 | A value is in the filtered frame iff it is in the frame and matches the mask |
| Selection.SortDesc | phonepe_dashgit.py:66 | sort_values(ascending=False) returns a permutation of its input in non-increasing key order |
| Selection.TopN | phonepe_dashgit.py:218 | nlargest(n) returns min(n, length) rows, in non-increasing order, drawn from its input |
| Selection.TopNOmitted | phonepe_dashgit.py:218 | An input row that nlargest(n) does not return is left out only when exactly n rows are returned, and each of those ranks at or above it |
| Selection.TopNLeavesOutLower | phonepe_dashgit.py:218 | Every row nlargest leaves out ranks no higher than every row it returns |

## Left out

- CSV loading (lines 8, 93, 161, 177, 213, 230) is file I/O. Each dataset is a given sequence of records.
- The Streamlit widgets, the sidebar scenario switch and the page structure are user interface. Their chosen values are parameters.
- The Plotly charts, the choropleth, label formatting and the remote GeoJSON boundaries are rendering and network access. This includes the pie chart of scenario 2, which sums Count per brand inside plotly.
- Floating-point rounding is not modelled: amounts and counts are exact reals.
- Missing key cells are not modelled. read_csv turns an empty or "NA"/"N/A" State, Transaction_type or District cell, or a Year cell of the insurance and district files, into NaN, and the groupbys of lines 22, 138, 181-183, 191, 218 and 235 drop such rows (dropna=True). The model reads every key cell as a plain string, so an empty State is grouped like any other. Grouping.GroupsOfRows, Dashboard.AggTableGroups, Dashboard.AggTableConserves, Dashboard.NationalTrendGroups and the other grouping contracts therefore describe the source only on frames with no missing key.
- Normalize.Normalize: astype(int) of lines 11-12 produces 64-bit integers, and a Year or Quarter cell outside the int64 range is not converted to its exact value. Text.ParseInt accepts whole numbers of any size, so the model does not capture that overflow.
- Dashboard.Average: pandas yields +inf for a positive amount over a zero count, which would sort first in the descending table of line 66. The model treats every zero-count average as undefined and ranks it last, as NaN is ranked.
- Normalize.Normalize: the Year and Quarter grammar is an optional sign followed by ASCII digits. Surrounding whitespace, digit separators such as `_`, non-ASCII digits, and float-typed columns (which astype(int) truncates) are not modelled.
- Text.ToNumber: the number grammar is an optional sign, then digits with at most one dot and at least one digit in all ("1.", ".5" and "-2.25" are numbers). Exponents, "inf", "nan" and surrounding whitespace, which to_numeric also accepts, become 0 here.
- Normalize.Normalize: the duplicate reload and normalisation of scenario 1 (lines 93-101) is the same operation on the same file, so it is the same method.
- Normalize.Normalize: the in-place column assignments are modelled as a new sequence of converted rows, built by a loop over the loaded array and its converted columns.
- Dashboard.QuarterTable: the column projection of line 66 (State, Total_Amount, Total_Count, Avg_Transaction) is not applied. The table keeps whole agg rows.
- Sort stability and tie order are not claimed, since pandas' default quicksort is not stable.
- The order of groups is not modelled faithfully: the model emits groups in order of first appearance, while groupby sorts them by key. No contract depends on group order, and every view that shows them re-sorts or charts them.
- Districts.TopDistricts: the single-measure views (line 138 and the district sums) carry a count slot that is always 0 internally, and it is projected out.
