# Fan-Engagement dashboard: the data-reduction layer in Dafny

The Fan-Engagement dashboard is a client-side React application. It loads
CSV files of contest and micro-marketing data and shows them as stat cards,
pie, bar, line and stacked charts, and a drill-down flowchart. Under the
chart markup, each component runs a small amount of data reduction. This
project models that layer and proves what it computes:

- **Drill-down navigator** (`HierarchicalFlowchart`). It is a class holding
  the level, the path of clicked labels, the node shown and its children.
  Its click, back and reset handlers keep the state consistent with the
  path. Its children partition the rows, are distinct and come in
  descending order. Its number formatter and colour picker are pure
  functions with proved properties.
- **Filter engine** (`Filtering`, `ContestPage`, `MicroMarketingPage`,
  `DashboardFilters`, `FilterPanel`, `EngagementChart`):
  - a row is kept when every non-empty entry of the filter map equals the
    row's cell strictly;
  - filtering keeps the rows in order, narrows when an entry is set, and
    does not depend on the order of the map's entries;
  - "Select All" and the option "All" reset a single field;
  - the dropdown options are the distinct truthy cells of a column;
  - a dropdown stores its option as text, so on a column the parser typed
    as numbers (the contest page's `Contest_ID`) any choice keeps none of
    that column's rows (`ContestPage.NumericChoiceKeepsNothing`).
- **Group-by reducers** (`Grouping`, `Entries`, `PieCounts` and one module
  per chart). Each `reduce` or `forEach` over a dictionary is a method with
  loop invariants, checked against a specification by key. The proofs
  cover:
  - partition conservation: the groups add up to the rows, or to the
    total;
  - the order of the output: first seen, descending count, numeric
    week or level, or text order of dates;
  - the rounding to cents, which moves a total by at most half a cent per
    entry.
- **Scalar cards** (`StatCards`, `ContestCharts`, `Chart1`,
  `LoginStatsCard`, `TimeSpentBarChart`): the sums, with NaN propagation
  where the code uses `parseFloat(x || 0)`; the unguarded average and
  ratio; and the card list built with `splice`.

A row is a `map<string, Cell>` with `Cell = Missing | Str | Num`. This
gives JavaScript's strict equality, its truthiness (`undefined`, `null`,
`''` and `0` are falsy), and the text a cell becomes as a dictionary key.
`parseFloat`, `parseInt` and `Number` read decimal text as JavaScript does,
skip JavaScript's white space, and return `None` for NaN. `parseInt`
without a radix also reads `0x` hexadecimal, and `Number` reads `0x`, `0o`
and `0b` literals; exponents and `Infinity` are not read (see Left out). The two coercion idioms of the code stay distinct:

- `parseFloat(x) || 0` reads an unreadable cell as 0 (`FloatOrZero`);
- `parseFloat(x || 0)` reads only a falsy cell as 0, and an unreadable
  cell makes the whole sum NaN (`FieldTotal`).

Numbers are unbounded reals and integers. `toFixed(2)` is `Fixed2`: the
nearest multiple of a cent, halves rounded away from zero, as `toFixed`
rounds a number it is given exactly. `toFixed(1)` is `Fixed1`, used only on
values that are not negative, where halves go up.

Two behaviours of the code are easy to miss:

- The contest page's `parseFloat(x || 0)` sums do not read an unreadable
  cell as 0. One such cell makes the sum NaN
  (app/components/contest/DashboardFilters.jsx:14,
  app/components/contest/StatCards.jsx:16, 19), so `FieldTotal` is `None`
  there.
- The gender, device, contest, date and age groupings have no fallback
  label. A missing cell forms its own group keyed `"undefined"`.

## Model

| member | source | states |
|---|---|---|
| Cells.FieldTotal | app/components/contest/Chart1.jsx:23-25 | the `parseFloat(x \|\| 0)` sum is NaN exactly when some row holds a truthy cell that does not read as a number, and otherwise is the sum of the rows' values with falsy cells counted as 0 |
| Cells.FieldSumNaN | app/components/contest/Chart1.jsx:23-25 | the running `parseFloat(x \|\| 0)` sum becomes NaN exactly when some row holds an unreadable value |
| Cells.FieldSumValue | app/components/contest/Chart1.jsx:23-25 | when every row reads, the running sum is the plain sum of the rows' values, missing and empty cells counted as 0 |
| Cells.Round | app/components/contest/Chart1.jsx:28 | `Math.round` lands within half of its argument, halves rounded up |
| Cells.RoundNaN | app/components/contest/Chart1.jsx:28 | `Math.round` of a possibly NaN number is NaN exactly when its argument is, and otherwise within half of it |
| Cells.Trunc | app/components/contest/Charts.jsx:8 | `parseInt` of a typed number truncates toward zero on both sides of zero |
| Text.NatTextParses | app/components/micro-marketing/PurchasePriceSumByFanLevel.jsx:33-34 | the decimal text of a natural number reads back as that number under `parseInt`, `parseFloat` and `Number` |
| Text.IntTextParses | app/components/micro-marketing/StackedBarChart.jsx:67-68 | the text of any integer, negative ones included, reads back under `parseInt`, with the radix 10 and without a radix |
| Text.StrCompareAntisymmetric | app/components/micro-marketing/PurchasePriceSumByFanLevel.jsx:41 | the text comparison flips sign when its arguments are swapped, so sorting with it is consistent |
| Text.StrCompareZero | app/components/micro-marketing/DailyTimeChart.jsx:33 | two texts compare equal exactly when they are the same text |
| Text.StrCompareTransitive | app/components/micro-marketing/DailyTimeChart.jsx:33 | the text order is transitive |
| Text.SortStringsOrdered | app/components/micro-marketing/DailyTimeChart.jsx:33 | `keys.sort()` leaves every key no greater than every later one, and distinct keys stay distinct |
| Text.SplitSecond | app/components/micro-marketing/StackedBarChart.jsx:67 | `split(' ')[1]` exists exactly when the text has a space |
| Seqs.SortWithSorted | app/components/micro-marketing/StackedBarChart.jsx:66-70 | the in-place `sort` with an antisymmetric comparator leaves neighbours in comparator order, and (by `SortWith`) is a permutation of its input |
| Seqs.SortedByKey | app/components/micro-marketing/WeeklyTimeSpentLineChart.jsx:27-31 | when the comparator subtracts integer keys, neighbour order is global ascending order of the keys |
| Seqs.DedupFirstOccurrenceOrder | app/components/contest/Header.jsx:4-5 | `[...new Set(xs)]` lists each value at the position of its first occurrence, in that order |
| Grouping.GroupCount | app/components/contest/GenderPieChart.jsx:7-10 | the counting `reduce` gives one counter per distinct key, in first-seen order, each equal to the key's number of rows and at least 1 |
| Grouping.GroupSum | app/components/micro-marketing/DailyTimeChart.jsx:24-31 | the summing accumulator gives one running total per distinct key, in first-seen order, each equal to the total of that key's values |
| Grouping.GroupSumCount | app/components/micro-marketing/FanLevelLoginPieChart.jsx:10-26 | a running total and a row counter per distinct key, each counter at least 1 |
| Grouping.GroupCollect | app/components/micro-marketing/Part1Chart.jsx:26-33 | the pushing accumulator gives each distinct key the list of its values in row order, never empty |
| Grouping.CountConservation | app/components/contest/GenderPieChart.jsx:7-10 | the groups of the distinct keys together count every row once |
| Grouping.SumConservation | app/components/micro-marketing/PurchaseStatsChart.jsx:10-26 | the group totals of the distinct keys add up to the total of all values |
| Grouping.GroupMeanWithin | app/components/micro-marketing/FanLevelLoginPieChart.jsx:31 | when every value lies in a range, so does every group's mean |
| Grouping.TotalAppend | app/components/micro-marketing/WeeklyTimeSpentLineChart.jsx:21 | one more row adds its value to its own key's total and to no other |
| Entries.GroupAndSort | app/components/micro-marketing/WeeklyTimeSpentLineChart.jsx:10-32 | the reduce-then-sort pipeline gives one entry per distinct key holding that key's total, distinct keys, every key present, neighbours in comparator order, and entries adding up to all values |
| Entries.Fixed2 | app/components/micro-marketing/WeeklyTimeSpentLineChart.jsx:35 | `parseFloat(x.toFixed(2))` is a whole number of cents within half a cent of `x` |
| Entries.RoundedSum | app/components/micro-marketing/PurchasePriceSumByFanLevel.jsx:43-46 | rounding each entry to cents moves the entries' sum by at most half a cent per entry |
| Entries.RoundedEntries | app/components/micro-marketing/WeeklyTimeSpentLineChart.jsx:33-36 | rounding the sorted entries keeps their keys, their grouping and their order |
| Entries.SortedTotalsSum | app/components/micro-marketing/DailyTimeChart.jsx:33-34 | the totals listed in sorted key order add up to all values |
| Filtering.FilterRows | app/contest/page.js:67-72 | the Part 2 filter keeps exactly the rows every non-empty entry matches strictly, and never more rows than it is given |
| Filtering.FilterRowsMembers | app/components/micro-marketing/EngagementChart.jsx:49-53 | a row is kept exactly when it is a loaded row and each entry is `''` or equals its cell |
| Filtering.FilterRowsSubsequence | app/contest/page.js:68-73 | the kept rows are an order-preserving subsequence of the loaded rows |
| Filtering.FilterRowsIdentity | app/micro-marketing/page.js:29-30 | a map with only empty values, `{}` included, keeps every row |
| Filtering.FilterRowsNarrow | app/contest/page.js:69-71 | setting one more entry filters the previous result by that entry, so it can only remove rows |
| Filtering.ApplyEntry | app/micro-marketing/page.js:30 | one more entry filters the rows already kept by strict equality when its value is non-empty, and changes nothing when it is empty |
| Filtering.Column | app/components/contest/DashboardFilters.jsx:5 | `data.map(row => row[field])` keeps the rows' order and length |
| Filtering.UniqueValues | app/components/contest/DashboardFilters.jsx:4-5 | the options are duplicate-free and truthy cells of the column, every truthy cell of the column is among them, and there are no more than rows |
| Filtering.UniqueValuesOrder | app/components/contest/DashboardFilters.jsx:4-5 | the options come in the order of their first occurrence among the column's truthy cells |
| Filtering.OptionsAreUniqueValues | app/components/micro-marketing/EngagementChart.jsx:204-206 | de-duplicating before dropping the falsy cells gives the same options as the other order |
| Filtering.SelectAll | app/components/contest/DashboardFilters.jsx:39 | "Select All" sets its field to `''` and leaves every other entry as it was |
| Filtering.Choose | app/components/contest/DashboardFilters.jsx:48-49 | choosing an option sets only its field to the chosen value |
| Filtering.OptionValue | app/components/micro-marketing/EngagementChart.jsx:42 | the option 'All' is stored as `''`, every other option as itself |
| Filtering.SelectAllWidens | app/components/contest/DashboardFilters.jsx:39 | after "Select All" the field no longer filters: the rows kept are those the other entries keep |
| DashboardFilters.TotalPurchaseValue | app/components/contest/DashboardFilters.jsx:13-16 | the total is NaN exactly when a kept row holds an unreadable `Purchase_Value`, and otherwise the sum over the kept rows with missing and empty values counted as 0 |
| DashboardFilters.TotalPurchaseUnfiltered | app/components/contest/DashboardFilters.jsx:7-11 | with every dropdown on "All" the total is the total over all the rows |
| DashboardFilters.DroppedRowUncounted | app/components/contest/DashboardFilters.jsx:7-16 | a row the filters drop leaves the total unchanged |
| DashboardFilters.KeptRowCounted | app/components/contest/DashboardFilters.jsx:13-16 | a kept row adds its value to the total, or makes it NaN |
| DashboardFilters.FieldTotalAppend | app/components/contest/DashboardFilters.jsx:13-16 | one more row adds its value to the running total, NaN absorbing every later row |
| ContestPage.InitialViewShowsAll | app/contest/page.js:27-33 | with the five initial empty filters every loaded row is shown, and the purchase total is the `parseFloat(x \|\| 0)` total of the whole column |
| ContestPage.NumericChoiceKeepsNothing | app/components/contest/DashboardFilters.jsx:48-49 | the dropdown stores the option's text, so choosing any option of a column the parser typed as numbers (`Contest_ID`, app/contest/page.js:58) keeps none of its rows |
| ContestPage.Part1Rows | app/contest/page.js:77-80 | a Part 1 row is kept exactly when it matches the sport when one is set and the contest when one is set |
| ContestPage.Part1IsFilterRows | app/contest/page.js:77-80 | the two-field Part 1 filter is the filter engine applied to the map of the two selections |
| ContestPage.Part1Unfiltered | app/contest/page.js:77-80 | with neither selection made, every row is shown |
| MicroMarketingPage.Restrict | app/micro-marketing/page.js:29 | the entries visited so far are the filter map cut down to the visited keys |
| MicroMarketingPage.RestrictAll | app/micro-marketing/page.js:29-33 | once the loop has visited every key, the entries applied are the whole filter map |
| MicroMarketingPage.Page.constructor | app/micro-marketing/page.js:19-20 | once the rows arrive, all of them are shown |
| MicroMarketingPage.Page.ApplyFilters | app/micro-marketing/page.js:25-34 | starting again from all loaded rows, whatever the order of the map's entries, the rows shown are exactly those every non-empty entry matches, and the loaded rows stay as they were |
| FilterPanel.Panel.constructor | app/components/micro-marketing/Part1Filters.jsx:7 | a panel starts from its given filter map, `{}` for Parts 1 and 3 |
| FilterPanel.Panel.HandleFilterChange | app/components/micro-marketing/Part1Filters.jsx:14-22 | only the field changes, to `''` for 'All' and to the value otherwise, and the map handed to the page is the new state |
| FilterPanel.Panel.HandleSelectAll | app/components/micro-marketing/Part3Filters.jsx:24-32 | only the field changes, to `''`, and the map handed to the page is the new state |
| FilterPanel.ChooseAllIsSelectAll | app/components/micro-marketing/Part3Filters.jsx:14-18 | choosing 'All' gives the same map as "Select All" |
| FilterPanel.SelectAllIdempotent | app/components/micro-marketing/Part1Filters.jsx:24-28 | "Select All" twice gives the same map as once |
| FilterPanel.GetUniqueValues | app/components/micro-marketing/Part1Filters.jsx:10 | no data gives no options |
| FilterPanel.GetUniqueValuesDistinct | app/components/micro-marketing/Part3Filters.jsx:9-12 | on any data the options are the distinct truthy cells in first-occurrence order |
| EngagementChart.InitialChartCoversAll | app/components/micro-marketing/EngagementChart.jsx:19-29 | with the initial five-field map of `''` the chart averages every timed row, over the age groups of all loaded rows |
| EngagementChart.TimedRows | app/components/micro-marketing/EngagementChart.jsx:58-60 | exactly the rows whose Age is a number to `isNaN` and whose TimeSpent reads under `parseInt` reach an age group |
| EngagementChart.AgeAverages | app/components/micro-marketing/EngagementChart.jsx:56-75 | one label per age in first-seen order, with beside it the mean of its non-empty group of times to cents; labels and values have equal length |
| EngagementChart.AgeGroupsPartition | app/components/micro-marketing/EngagementChart.jsx:56-66 | every timed row lands in exactly one age group |
| Header.DistinctColumn | app/components/contest/Header.jsx:4-5 | the options are duplicate-free, no more than the rows, contain every row's cell, falsy ones included, and only such cells |
| Header.DistinctColumnOrder | app/components/contest/Header.jsx:4-5 | the options come in the order of the rows that first carry them |
| PieCounts.CountSlices | app/components/contest/GenderPieChart.jsx:7-15 | the gender (and `Chart1.jsx:12-20` device) slices are one per distinct key in first-seen order, each valued by its number of rows |
| PieCounts.SlicesOf | app/components/contest/GenderPieChart.jsx:12-15 | the `Object.entries(...).map` loop turns the counters into one slice per key of the given order, valued by that key's number of rows |
| PieCounts.SlicesPartition | app/components/contest/GenderPieChart.jsx:7-10 | every slice counts at least one row, the slices add up to the number of rows, and every row's key has its slice |
| PieCounts.SlicesTotal | app/components/contest/GenderPieChart.jsx:7-15 | the slice values add up to the number of rows |
| PieCounts.SlicesPositive | app/components/contest/GenderPieChart.jsx:8-9 | every slice counts at least one row |
| PieCounts.SlicesCoverRows | app/components/contest/GenderPieChart.jsx:8 | every row's key, a missing cell's `"undefined"` included, has its slice |
| PieCounts.Cycle | app/components/contest/GenderPieChart.jsx:22-24 | slice `i` gets `COLORS[i % COLORS.length]` |
| PieCounts.CycleNeighbours | app/components/micro-marketing/FanLevelLoginPieChart.jsx:70-72 | with a palette of distinct colours, slices fewer than the palette's size apart have different colours |
| Chart1.TotalValue | app/components/contest/Chart1.jsx:23-28 | the centre value is NaN exactly when a row holds an unreadable `Purchase_Value`, and otherwise within half of the sum with missing and empty values counted as 0 |
| Chart1.ContestIdsSorted | app/components/contest/Chart1.jsx:32-36 | the sorted contest ids are the distinct truthy ids, each once, ascending in text order |
| Chart1.SortedTextOrder | app/components/contest/Chart1.jsx:36 | contest ids whose neighbours are in text order are in text order along the whole axis |
| Chart1.PairRows | app/components/contest/Chart1.jsx:44-46 | a segment's rows are the rows with that contest id and that item type |
| Chart1.FalsyRowsUncounted | app/components/contest/Chart1.jsx:43-53 | a row whose contest id or item is falsy lands in no segment |
| Chart1.BarRow | app/components/contest/Chart1.jsx:40-54 | the `forEach` builds the bar's map of segment sums |
| Chart1.BarRowKeys | app/components/contest/Chart1.jsx:40-54 | a bar's keys are `Contest_ID` and the texts of the item types |
| Chart1.BarRowContestId | app/components/contest/Chart1.jsx:40 | when no item type is written `Contest_ID`, a bar keeps its contest id |
| Chart1.BarRowCells | app/components/contest/Chart1.jsx:43-53 | with distinct item texts, each item's key holds the purchase total of that contest's rows for that item |
| Chart1.BarData | app/components/contest/Chart1.jsx:39-57 | one bar per sorted contest id, in that order |
| Chart1.Bars | app/components/contest/Chart1.jsx:39-57 | the `map` over the sorted contest ids builds one bar per id, in that order, each the bar of its contest |
| Chart1.ColorMap | app/components/contest/Chart1.jsx:60-63 | the `forEach` builds the colour map of the item types |
| Chart1.ColorSpecCycles | app/components/contest/Chart1.jsx:60-63 | with distinct item texts, item `i` is mapped to `COLORS[i % 5]` |
| TimeSpentBarChart.TimeSpentByContest | app/components/contest/TimeSpentBarChart.jsx:5-11 | one bar per distinct truthy contest id, in first-seen order, each holding the running total of its rows' rounded hours |
| TimeSpentBarChart.RunningTotals | app/components/contest/TimeSpentBarChart.jsx:5-9 | the `forEach` keeps one accumulator per distinct contest, in first-seen order, and each ends as the running total over that contest's rows |
| TimeSpentBarChart.RunningSums | app/components/contest/TimeSpentBarChart.jsx:8 | without unreadable hours a contest's total is the sum of its rows' rounded hours |
| TimeSpentBarChart.RunningRestarts | app/components/contest/TimeSpentBarChart.jsx:8 | an unreadable row makes the total NaN, and `(NaN \|\| 0)` restarts it from 0 at the next row |
| TimeSpentBarChart.RunningUpToIsRunning | app/components/contest/TimeSpentBarChart.jsx:6-9 | the loop's per-contest accumulator after `n` rows is the running total over that contest's first rows |
| StatCards.Divide | app/components/contest/StatCards.jsx:17 | JavaScript division is finite exactly for a non-zero divisor, NaN for 0/0 or a NaN operand, and otherwise an infinity of the dividend's sign |
| StatCards.Percent | app/components/contest/StatCards.jsx:29 | multiplying by 100 keeps NaN and the infinities |
| StatCards.FieldValue | app/components/contest/StatCards.jsx:13-20 | a sum card holds its field's `parseFloat(x \|\| 0)` total; the average card is defined exactly for non-empty data with a readable total, and is then the mean |
| StatCards.CardText | app/components/contest/StatCards.jsx:4-9 | a card's text ends with its field's suffix |
| StatCards.CardTextReads | app/components/contest/StatCards.jsx:4-9 | a readable value is written as `Math.round(value)` followed by the suffix, and NaN as `NaN` followed by it |
| StatCards.FieldCards | app/components/contest/StatCards.jsx:13-25 | one card per field, in the table's order, each labelled and valued from its field |
| StatCards.ParticipationBounds | app/components/contest/StatCards.jsx:27-29 | when users do not exceed registrations and registrations are positive, the rate is a finite percentage between 0 and 100 |
| StatCards.ParticipationWithoutRegistrations | app/components/contest/StatCards.jsx:27-29 | with no registrations the rate is never finite: NaN without users, an infinity otherwise |
| StatCards.Totals | app/components/contest/StatCards.jsx:31-34 | seven cards: the participation card, holding the rate `userCount / totalRegistrations * 100`, inserted at index 4, the field cards before and after it in order |
| StatCards.CardLayout | app/components/contest/StatCards.jsx:36-37 | four cards on the first row and three on the second, the participation card first on the second row, in the order Registration, User Count, Engagement, Bounce, Participation, Revenue, Buyer % |
| StatCards.AverageBounds | app/components/contest/StatCards.jsx:15-17 | when every buyer percentage reads and lies in a range, the average card's value lies in it |
| StatCards.EmptyCards | app/components/contest/StatCards.jsx:17 | without rows the sum cards read `0`, while the unguarded average and the participation rate read NaN |
| ContestCharts.BarData | app/components/contest/Charts.jsx:6-10 | one bar per row, in row order, named by the row's `Contest_Name` |
| ContestCharts.BarDataReads | app/components/contest/Charts.jsx:8-9 | a user count or a registration count stored as a decimal text or as a typed number reads back as that count on its bar |
| ContestCharts.PieData | app/components/contest/Charts.jsx:12-15 | exactly two slices, the `parseFloat(x \|\| 0)` sums of the returning and new users columns |
| ContestCharts.TotalIsRowSum | app/components/contest/Charts.jsx:18 | the centre total is NaN exactly when a row holds an unreadable value in either column, and otherwise the sum of both columns over all rows |
| ContestCharts.EmptyCharts | app/components/contest/Charts.jsx:6-18 | no rows give no bars, two zero slices and a zero total |
| StackedBarChart.GroupByWeek | app/components/micro-marketing/StackedBarChart.jsx:38-63 | one bar per distinct `String(row.Week \|\| 0)` in first-seen order, labelled `Week n`, each metric the week's total of `Number(x) \|\| 0` |
| StackedBarChart.MetricSums | app/components/micro-marketing/StackedBarChart.jsx:53-57 | for one metric, every week in first-seen order gets the total of that metric over its rows |
| StackedBarChart.BarsOf | app/components/micro-marketing/StackedBarChart.jsx:41-50 | one bar per week in the given order, labelled `Week n`, whose five metrics are that week's totals |
| StackedBarChart.ProcessData | app/components/micro-marketing/StackedBarChart.jsx:36-73 | one bar per distinct week, neighbours in week-number order, each metric's total over the bars equal to its total over the rows, a week charted exactly when some row falls in it, every bar labelled `Week k` for such a week `k` and holding that week's five totals, and no two bars sharing a label |
| StackedBarChart.SortedBarsHoldTotals | app/components/micro-marketing/StackedBarChart.jsx:41-70 | after the sort every bar still carries the label of a week some row falls in and that week's five totals, and the labels stay distinct |
| StackedBarChart.DistinctLabels | app/components/micro-marketing/StackedBarChart.jsx:41-50 | bars labelled from distinct weeks keep distinct labels under any reordering |
| StackedBarChart.WeekLabelInjective | app/components/micro-marketing/StackedBarChart.jsx:43 | two weeks with the same label `Week k` are the same week |
| StackedBarChart.ColumnsConserved | app/components/micro-marketing/StackedBarChart.jsx:53-57 | reordering the bars keeps each metric's total equal to its total over the rows |
| StackedBarChart.WeeksCharted | app/components/micro-marketing/StackedBarChart.jsx:41-50 | a week is charted exactly when some row falls in it |
| StackedBarChart.WeekNumberReads | app/components/micro-marketing/StackedBarChart.jsx:43 | the label `Week n` of an integer week reads back as `n` |
| StackedBarChart.ChartAscending | app/components/micro-marketing/StackedBarChart.jsx:66-70 | when every label carries a number, the weeks ascend along the whole chart |
| StackedBarChart.FormatYAxis | app/components/micro-marketing/StackedBarChart.jsx:79-84 | values below 1000 pass unchanged as numbers, and from 1000 up every tick becomes a text |
| StackedBarChart.FormatWholeThousands | app/components/micro-marketing/StackedBarChart.jsx:80-81 | a whole number of thousands is written as that number followed by `K` |
| FanLevels.LevelKeys | app/components/micro-marketing/PurchasePriceSumByFanLevel.jsx:11 | each row is grouped under `Fan_Level \|\| 'Unknown'` |
| FanLevels.CompareLevelsAntisymmetric | app/components/micro-marketing/PurchasePriceSumByFanLevel.jsx:27-42 | the level comparator flips sign when its arguments are swapped |
| FanLevels.LevelNumberReads | app/components/micro-marketing/PurchasePriceSumByFanLevel.jsx:29-34 | the label `Level n` yields the number `n` to the comparator |
| FanLevels.NumberedLevelsAscend | app/components/micro-marketing/PurchaseItemCountByFanLevel.jsx:36-38 | when every level carries a number, the numbers ascend along the whole chart |
| FanLevels.UnnumberedLevelsInTextOrder | app/components/micro-marketing/PurchaseItemCountByFanLevel.jsx:41 | when no level carries a number, the levels are in text order along the whole chart |
| FanLevels.TenthsTextReads | app/components/micro-marketing/PurchasePriceSumByFanLevel.jsx:51-52 | the `toFixed(1)` text has one digit after the point and reads back as the count of tenths |
| FanLevels.Fixed1Close | app/components/micro-marketing/PurchaseItemCountByFanLevel.jsx:47 | the tenths written lie within half a tenth of the number |
| PurchasePriceSumByFanLevel.ChartData | app/components/micro-marketing/PurchasePriceSumByFanLevel.jsx:6-47 | no rows give no bars; otherwise one bar per distinct level with distinct keys, in comparator order, each the level's total of `parseFloat(Purchase_Price) \|\| 0` to cents, adding up to all prices within half a cent per bar |
| PurchasePriceSumByFanLevel.FormatCurrency | app/components/micro-marketing/PurchasePriceSumByFanLevel.jsx:50-54 | `M` from a million up, `K` from a thousand up, each after the amount in that unit to one decimal, and the plain number below a thousand |
| PurchasePriceSumByFanLevel.FormatCurrencyClose | app/components/micro-marketing/PurchasePriceSumByFanLevel.jsx:51-52 | the amount written lies within half a tenth of a unit of the value |
| PurchaseItemCountByFanLevel.Flags | app/components/micro-marketing/PurchaseItemCountByFanLevel.jsx:12 | a row counts 1 exactly when its `Purchase_Item` is truthy and not `'None'` |
| PurchaseItemCountByFanLevel.FlagsCount | app/components/micro-marketing/PurchaseItemCountByFanLevel.jsx:12 | the flags add up to the number of rows with a purchase |
| PurchaseItemCountByFanLevel.CountWithinGroup | app/components/micro-marketing/PurchaseItemCountByFanLevel.jsx:21 | a level's count lies between 0 and its number of rows |
| PurchaseItemCountByFanLevel.ChartData | app/components/micro-marketing/PurchaseItemCountByFanLevel.jsx:6-43 | no rows give no bars; otherwise every level present gets a bar, possibly of count 0, in comparator order, each count no more than its level's rows and all counts adding up to the rows with a purchase |
| PurchaseItemCountByFanLevel.ItemCounts | app/components/micro-marketing/PurchaseItemCountByFanLevel.jsx:10-26 | the grouped counts are one per distinct level with distinct keys, each between 0 and the level's rows, adding up to the rows with a purchase |
| PurchaseItemCountByFanLevel.FormatValue | app/components/micro-marketing/PurchaseItemCountByFanLevel.jsx:46-49 | values below 1000 pass unchanged; from 1000 up they are written as thousands to one decimal followed by `K` |
| PurchaseStatsChart.ItemKeys | app/components/micro-marketing/PurchaseStatsChart.jsx:11 | each row is grouped under `Purchase_Item \|\| 'None'`, so missing items merge with `'None'` |
| PurchaseStatsChart.ChartData | app/components/micro-marketing/PurchaseStatsChart.jsx:6-30 | no rows give no bars; otherwise one bar per distinct item in first-seen order holding its price total, then one `Total` bar, without an `increase`, holding the total of all prices |
| PurchaseStatsChart.ItemBars | app/components/micro-marketing/PurchaseStatsChart.jsx:23 | `Object.values` gives one increase bar per item in the given order, holding that item's price total |
| PurchaseStatsChart.BarsTotal | app/components/micro-marketing/PurchaseStatsChart.jsx:26 | the item bars' increases add up to all the prices |
| PurchaseStatsChart.FormatValue | app/components/micro-marketing/PurchaseStatsChart.jsx:33-37 | values below 1000 pass unchanged; from 1000 up they are written as the currency formatter writes them |
| WeeklyTimeSpentLineChart.WeekKeys | app/components/micro-marketing/WeeklyTimeSpentLineChart.jsx:11 | each row is grouped under `Week \|\| 'Unknown'` |
| WeeklyTimeSpentLineChart.ChartData | app/components/micro-marketing/WeeklyTimeSpentLineChart.jsx:6-37 | no rows give no points; otherwise one point per distinct week with distinct keys, in week-number order, each the week's hours to cents, adding up to all hours within half a cent per point |
| WeeklyTimeSpentLineChart.WeekTotals | app/components/micro-marketing/WeeklyTimeSpentLineChart.jsx:10-32 | the grouped weeks are one entry per distinct week holding its total hours, in comparator order, adding up to all hours |
| WeeklyTimeSpentLineChart.RoundedWeeks | app/components/micro-marketing/WeeklyTimeSpentLineChart.jsx:33-36 | rounding to cents keeps one distinct entry per week in week order, each the week's total to cents, the sum within half a cent per point |
| WeeklyTimeSpentLineChart.CompareWeeksAntisymmetric | app/components/micro-marketing/WeeklyTimeSpentLineChart.jsx:27-31 | the week comparator flips sign when its arguments are swapped |
| WeeklyTimeSpentLineChart.WeekNumberReads | app/components/micro-marketing/WeeklyTimeSpentLineChart.jsx:29-30 | `Week n` sorts as `n` |
| WeeklyTimeSpentLineChart.Ascending | app/components/micro-marketing/WeeklyTimeSpentLineChart.jsx:27-31 | the week numbers ascend along the whole line, labels without a number, such as 'Unknown', counting as 0 |
| FanLevelLoginPieChart.Logins | app/components/micro-marketing/FanLevelLoginPieChart.jsx:12 | each row adds `parseFloat(Week_Logins) \|\| 0` |
| FanLevelLoginPieChart.Averages | app/components/micro-marketing/FanLevelLoginPieChart.jsx:29-32 | each slice holds its level's mean to cents; every count is at least 1, so the guard's 0 is never used |
| FanLevelLoginPieChart.ChartData | app/components/micro-marketing/FanLevelLoginPieChart.jsx:6-33 | no rows give no slices; otherwise one slice per distinct level in first-seen order, holding the level's average logins to cents |
| FanLevelLoginPieChart.SliceColors | app/components/micro-marketing/FanLevelLoginPieChart.jsx:70-72 | slice `i` gets `COLORS[i % 6]` |
| FanLevelLoginPieChart.SliceColorsDiffer | app/components/micro-marketing/FanLevelLoginPieChart.jsx:36 | any six consecutive slices have six different colours |
| DailyTimeChart.ChartData | app/components/micro-marketing/DailyTimeChart.jsx:21-34 | the dates are the distinct dates of the rows whose hours read, strictly ascending in text order, and a date is charted exactly when such a row carries it; beside each date, aligned, its hours to cents, adding up to all readable hours within half a cent per date |
| DailyTimeChart.SortedDates | app/components/micro-marketing/DailyTimeChart.jsx:33 | the sorted keys are the distinct dates, each once, strictly ascending in text order |
| DailyTimeChart.DatesOfRows | app/components/micro-marketing/DailyTimeChart.jsx:24-33 | a date is charted exactly when some row with readable hours carries it |
| DailyTimeChart.RoundedTotals | app/components/micro-marketing/DailyTimeChart.jsx:34 | each date's value is its total to cents, aligned with the dates |
| DailyTimeChart.TotalsConserved | app/components/micro-marketing/DailyTimeChart.jsx:33-34 | the rounded day totals add up to all the hours within half a cent per day |
| DailyTimeChart.UnreadableRowIgnored | app/components/micro-marketing/DailyTimeChart.jsx:26-27 | a row whose hours do not read as a number changes nothing |
| DailyTimeChart.ReadableRowCounted | app/components/micro-marketing/DailyTimeChart.jsx:28-29 | a readable row adds its hours to its own date's total |
| Part1Chart.ChartData | app/components/micro-marketing/Part1Chart.jsx:23-39 | the dates are the distinct dates of the rows with a readable index, strictly ascending, and a date is charted exactly when such a row carries it; beside each, aligned, the mean of its indices to cents |
| Part1Chart.Averages | app/components/micro-marketing/Part1Chart.jsx:36-39 | each average is the mean of the date's non-empty list of indices, to cents |
| Part1Chart.AveragesWithin | app/components/micro-marketing/Part1Chart.jsx:36-39 | when every readable index lies in a range, every plotted average lies in it within half a cent |
| Part1Chart.UnreadableRowIgnored | app/components/micro-marketing/Part1Chart.jsx:28-29 | a row whose index does not read as a number changes nothing |
| LoginStatsCard.TotalLogins | app/components/micro-marketing/LoginStatsCard.jsx:5 | the count never exceeds the number of rows |
| LoginStatsCard.TotalLoginsAppend | app/components/micro-marketing/LoginStatsCard.jsx:5 | a row with a truthy `Login_ID` adds exactly one; any other row, such as an empty or missing id, adds nothing |
| LoginStatsCard.TotalLoginsExtremes | app/components/micro-marketing/LoginStatsCard.jsx:5 | the count equals the number of rows exactly when every row has a login id, and is 0 exactly when none does, empty data included |
| LoginStatsCard.TotalLoginsNotUnique | app/components/micro-marketing/LoginStatsCard.jsx:4-5 | the ids are not made unique: the same rows twice count twice |
| HierarchicalFlowchart.NodeAt | app/components/micro-marketing/HierarchicalFlowchart.jsx:62-74 | the node for a path is named by its last label, or `Count of UID` at the root, is valued by the number of rows under the path, and sits at the path's level |
| HierarchicalFlowchart.PathRowsReach | app/components/micro-marketing/HierarchicalFlowchart.jsx:55-60 | filtering level by level keeps exactly the rows that carry the path's label at every level, in order |
| HierarchicalFlowchart.ChildrenAt | app/components/micro-marketing/HierarchicalFlowchart.jsx:76-90 | there are no children at the last level, and otherwise the children are the groups of the next field |
| HierarchicalFlowchart.ChildrenAreGroups | app/components/micro-marketing/HierarchicalFlowchart.jsx:79-84 | each child is the group of one label present among the rows, one level down, valued by that label's number of rows, at least 1 |
| HierarchicalFlowchart.ChildrenCoverLabels | app/components/micro-marketing/HierarchicalFlowchart.jsx:79 | every row's label, 'Unknown' for an empty or missing cell, has its child |
| HierarchicalFlowchart.ChildrenDistinct | app/components/micro-marketing/HierarchicalFlowchart.jsx:81 | no two children share a name |
| HierarchicalFlowchart.ChildrenPartition | app/components/micro-marketing/HierarchicalFlowchart.jsx:79-84 | the children's values add up to the number of rows of the node |
| HierarchicalFlowchart.OnPathCount | app/components/micro-marketing/HierarchicalFlowchart.jsx:79-84 | a label's group holds as many rows as carry that label |
| HierarchicalFlowchart.ChildrenDescending | app/components/micro-marketing/HierarchicalFlowchart.jsx:85 | the children come in descending order of value |
| HierarchicalFlowchart.DrillValueMatchesChild | app/components/micro-marketing/HierarchicalFlowchart.jsx:94-99 | with the label-based filter, the node reached by clicking a child has the child's name, value and level |
| HierarchicalFlowchart.StrictPathRows | app/components/micro-marketing/HierarchicalFlowchart.jsx:57-60 | the as-written filter keeps only rows whose cell on each path field is the path's label as a string |
| HierarchicalFlowchart.StrictDrillLosesUnknown | app/components/micro-marketing/HierarchicalFlowchart.jsx:59 | a row without a Gender shows an 'Unknown' child of value 1, but the as-written filter keeps none of the rows on drilling into it |
| HierarchicalFlowchart.StrictDrillLosesNumbers | app/components/micro-marketing/HierarchicalFlowchart.jsx:32 | a Gender typed as the number 1 shows a child '1' of value 1, but the as-written filter keeps none of the rows on drilling into it |
| HierarchicalFlowchart.StrictAgreesOnStrings | app/components/micro-marketing/HierarchicalFlowchart.jsx:57-60 | when the path's cells are strings and the path has no 'Unknown' or empty label, the as-written and the label-based filters agree |
| HierarchicalFlowchart.StrictPathRowsStep | app/components/micro-marketing/HierarchicalFlowchart.jsx:57-60 | each label on the path filters the rows kept so far once more, keeping those whose cell on the next field is strictly that label |
| HierarchicalFlowchart.StrictRowReaches | app/components/micro-marketing/HierarchicalFlowchart.jsx:59 | a row whose cells equal the path's non-empty labels strictly also reaches the path by labels |
| HierarchicalFlowchart.StrictWithinPathRows | app/components/micro-marketing/HierarchicalFlowchart.jsx:57-60 | when no label on the path is empty, the as-written filter keeps an order-preserving subsequence of the rows the label-based filter keeps, so never more |
| HierarchicalFlowchart.StrictDrillAtMostChild | app/components/micro-marketing/HierarchicalFlowchart.jsx:57-84 | under the as-written filter, the node reached by clicking a child never shows more than the child's value |
| HierarchicalFlowchart.LabelNonEmpty | app/components/micro-marketing/HierarchicalFlowchart.jsx:79 | a child's label `item[field] \|\| 'Unknown'` is never empty |
| HierarchicalFlowchart.EntriesOf | app/components/micro-marketing/HierarchicalFlowchart.jsx:81-84 | `Object.entries(grouped).map(...)` gives one node per label, one level down, valued by its group's size |
| HierarchicalFlowchart.GroupChildren | app/components/micro-marketing/HierarchicalFlowchart.jsx:78-85 | `groupBy` followed by the descending sort computes the children of the node |
| HierarchicalFlowchart.Group3 | app/components/micro-marketing/HierarchicalFlowchart.jsx:123 | grouping `n` digits in threes inserts `(n - 1) / 3` commas |
| HierarchicalFlowchart.FormatNumberDigits | app/components/micro-marketing/HierarchicalFlowchart.jsx:122-124 | the formatted number with its commas removed is `num.toString()`; the commas fall exactly every three digits from the right, so the first group has 1 to 3 digits |
| HierarchicalFlowchart.Group3Digits | app/components/micro-marketing/HierarchicalFlowchart.jsx:123 | removing the inserted commas gives back the digits |
| HierarchicalFlowchart.Group3Commas | app/components/micro-marketing/HierarchicalFlowchart.jsx:123 | the commas fall every three digits from the right, never first or last, the first group 1 to 3 digits long |
| HierarchicalFlowchart.NodeColor | app/components/micro-marketing/HierarchicalFlowchart.jsx:145-163 | a selected node gets the selected class; any other gets a palette entry, always in bounds |
| HierarchicalFlowchart.NodeColorPermutation | app/components/micro-marketing/HierarchicalFlowchart.jsx:149-151 | the colour depends only on the name's characters, not on their order |
| HierarchicalFlowchart.Flowchart.constructor | app/components/micro-marketing/HierarchicalFlowchart.jsx:41-42 | after loading, the root is shown: empty path, level 0, and the node and children the empty path determines |
| HierarchicalFlowchart.Flowchart.ProcessHierarchyLevel | app/components/micro-marketing/HierarchicalFlowchart.jsx:53-91 | the loop filters the rows down the path; the node and children shown are those the path determines, and the level and path stay as they were |
| HierarchicalFlowchart.Flowchart.NodeClick | app/components/micro-marketing/HierarchicalFlowchart.jsx:94-101 | below the last level the clicked label is appended and the level rises by one, and a clicked child's value becomes the node's value; at level 5 nothing changes; the level always equals the path's length and stays within 0..5 |
| HierarchicalFlowchart.Flowchart.BackClick | app/components/micro-marketing/HierarchicalFlowchart.jsx:104-112 | above the root the last label is dropped and the level falls by one; at level 0 nothing changes; the invariant is kept |
| HierarchicalFlowchart.Flowchart.ResetClick | app/components/micro-marketing/HierarchicalFlowchart.jsx:115-119 | the path empties, the level returns to 0, and the node counts all rows as on loading |

## Left out

- CSV fetching and parsing (Papa Parse, `fetch`, the `complete` and `error` callbacks) are not modelled. Every operation starts from a ready sequence of rows. Numeric typing by the parser is represented by `Num` cells.
- React state plumbing (`useState`, `useEffect`, `useMemo`, the loading and error flags) is not modelled beyond the state it holds. That state is the classes' fields, or the value a component recomputes.
- JSX rendering, chart configuration, tooltips, breadcrumbs and the navigation files (`SideNavbar`, `TopNavbar`, `Layout`, `MainContent`, `DataTable`, `FanLevelTable`) are left out. They hold no reduction logic.
- IEEE floating point is not modelled. Numbers are exact reals. NaN is `None` of an `Option`. The infinities appear only in `StatCards.Divide`, where the code divides without a guard.
- `Fixed2` rounds halves away from zero, as `toFixed(2)` does for a number it is given exactly. It is applied to sums and means that may be negative (weekly hours, age means, login averages), and the model rounds those the same way. The binary representation of a decimal (which makes `(1.005).toFixed(2)` give `1.00`) is not modelled.
- `Fixed1` rounds halves up. It is used only on values that are not negative (`FormatCurrency`, `FormatValue` from a thousand up), where this is what `toFixed(1)` does.
- `Fixed2` returns the rounded number, not its text. The strings that the daily chart, the Part 1 chart and the Engagement chart's averages (app/components/micro-marketing/EngagementChart.jsx:73-75) hold are modelled by the numbers they show.
- StatCards.Totals: the participation card holds the rate itself (`CardValue.Percentage`). Its `toFixed(2)` text followed by `%` is not built.
- `NumText` writes at most twenty fraction digits and never uses exponent notation. Exponents and `Infinity` in parsed text are also not read, by `parseFloat` or by `Number`.
- `parseInt` with the radix 10 reads decimal only. Without a radix it also reads `0x` hexadecimal (`Text.ParseIntAnyRadix`). No other radix occurs in the code.
- `Object.keys`/`Object.values` list integer-like keys first in JavaScript. The model keeps first-encounter order for every key.
- Strings are sequences of Dafny characters, which are Unicode scalar values. JavaScript strings are UTF-16 code units. The default `sort()` compares code units, and the model compares characters. The two orders differ only when a character outside the Basic Multilingual Plane meets one from U+E000 to U+FFFF.
- `localeCompare` is modelled as the same character order. Locale collation is not modelled.
- A dictionary key is the text of its cell. A number and the string of its digits therefore share a key, as in JavaScript. `null` and `undefined` are both `Missing`, keyed `"undefined"`.
- The parser's numeric typing (`dynamicTyping: true`, app/contest/page.js:43, 58; app/components/micro-marketing/HierarchicalFlowchart.jsx:32; app/components/micro-marketing/StackedBarChart.jsx:23) also turns an empty cell into `null`, keyed `"null"` rather than `"undefined"`, and turns `true`/`false` and ISO dates into booleans and `Date` objects. The model has no null, boolean or date cells. An empty cell is `Str("")` or `Missing`, both falsy, so filters, truthiness and `\|\| 0` treat it as the code does. Only a dictionary key made from a null cell is not represented.
- The Engagement chart's filter map follows the same update rules as `FilterPanel.Panel`. Its handlers are those of the panel class, constructed from `EngagementChart.InitialFilters`.
- The dashboard filter bar's `setFilters` updates are `Filtering.SelectAll` and `Filtering.Choose`. `Header`'s selection state is the `ContestPage.Part1Rows` arguments.
- WeeklyTimeSpentLineChart's `formatValue` (app/components/micro-marketing/WeeklyTimeSpentLineChart.jsx:40-43) is the same expression as the item-count chart's. It is stated once, as `PurchaseItemCountByFanLevel.FormatValue`.
- StackedBarChart.GroupByWeek: the five metrics of a week are accumulated by five passes over the rows, one per metric, rather than five additions per row. The totals are the same.
- StackedBarChart.ProcessData and WeeklyTimeSpentLineChart.ChartData: the sort is stated as neighbour order under the comparator. Global ascending order is proved separately (`ChartAscending`, `Ascending`). For the stacked chart this holds only when every label carries a number, because a NaN comparison counts as 0.
- StatCards.Totals: `splice` on the array is modelled on values, as the seven cards it produces, not as an update in place.
- FanLevels.LevelKey: no file in the repository renders the fan-level, weekly, purchase-stats, login or daily charts, so how their rows are typed is unknown. The model assumes text cells in `Fan_Level` and `Week` and compares the key text. A number in those cells would make `replace` throw in the sort comparator (app/components/micro-marketing/PurchasePriceSumByFanLevel.jsx:29-30, app/components/micro-marketing/PurchaseItemCountByFanLevel.jsx:29-30, app/components/micro-marketing/WeeklyTimeSpentLineChart.jsx:29-30); that throw is not modelled.
- WeeklyTimeSpentLineChart.ChartData: the group key keeps the raw `item.Week` (app/components/micro-marketing/WeeklyTimeSpentLineChart.jsx:11). If that cell is a number, `a.week.replace` throws once the sort compares two groups (lines 29-30). `CompareWeeks` compares the key text instead, and the throw is not modelled.
- HierarchicalFlowchart.Flowchart: the navigator uses the label-based drill-down filter, `PathRows`. The as-written strict filter is modelled separately, as `StrictPathRows` (see Findings). `StrictWithinPathRows` proves that it keeps a subsequence of `PathRows`, and `StrictDrillAtMostChild` that the shown value is then at most the child's value.
- HierarchicalFlowchart.NodeColor: `charCodeAt` is modelled as the code point of a Dafny `char`, which for characters outside the Basic Multilingual Plane is not the UTF-16 code unit JavaScript sums.

## Findings

| source | as written | input that shows it | evidently intended | confidence | as-written member | corrected member |
|---|---|---|---|---|---|---|
| app/components/micro-marketing/HierarchicalFlowchart.jsx:59 | the drill-down filter compares the stored cell `item[field]` with the clicked label by `===`; the label came from `groupBy` at line 79, so it is `'Unknown'` for an empty or missing cell and a string for a number typed by the parser (line 32) | rows `[{Sport: "Cricket"}]`, drilling into the child 'Unknown' of value 1, leaves 0 rows; rows `[{Gender: 1}]`, drilling into the child '1' of value 1, leaves 0 rows | the node reached by clicking a child holds exactly that child's rows, so its value equals the child's value | not executed | HierarchicalFlowchart.StrictDrillLosesUnknown | HierarchicalFlowchart.DrillValueMatchesChild |
