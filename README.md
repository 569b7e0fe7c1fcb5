# Import dashboard aggregation engine, modelled in Dafny

This project models the aggregation engine of a vehicle-import dashboard
(`src/utils/dataAnalysis.ts`) and proves what its figures mean. The engine takes
the imported records as one flat list. Its nine side-effect-free functions turn
that list into:

- the KPI cards (`calculateKPIs`);
- the brand, model and vehicle-type rankings and the models-per-brand count;
- the market-share pie;
- the list of models new this month;
- month-over-month brand growth;
- up to four textual insights.

The source uses Spanish field names. The model renders them in English:
`marca` = brand, `modelo` = model, `tipo_vehiculo` = vehicleType,
`unidades` = units, `año` = year, `mes` = month, `fecha` = date.

Modules:

- `Types` (types.dfy): the record and view-model shapes of `src/types/index.ts`, and
  the upload's validation rule (`ValidRecord`).
- `Sequences` (sequences.dfy): `slice(0, end)` with JavaScript's negative-end rule,
  sums, distinctness and the subsequence relation.
- `Sorting` (sorting.dfy): `Array.prototype.sort` with a descending comparator,
  modelled as stable insertion sort. It is proved sorted, a permutation, stable per
  key value, sum-preserving and distinctness-preserving.
- `Grouping` (grouping.dfy): the `reduce`-into-an-object idiom. It is modelled as an
  association list whose keys are in insertion order, the order `Object.entries`
  and `Object.keys` return for ordinary string keys. Each group's accumulator is
  proved to be the fold of exactly the records carrying its key. The keys are proved
  to be the distinct keys of the input in order of first occurrence.
- `DataAnalysis` (analysis.dfy): the nine functions and their properties.

Every `reduce`, `filter`, `map`, `Set` and `sort` of the source is a recursive
function here. Time windows are a `Window` datatype whose filter predicates are
written exactly as the source writes them, including the January→December rollback
of the previous month. Composite keys are plain string concatenations, as in the
source: `brand-model` for the KPIs and new-model detection, `brand model` for the
model ranking. Two different brand/model pairs can therefore share a key
(`ModelKeyCollision`). Percentages are exact `real` numbers. An insight is the
datatype of the values it interpolates, not the formatted Spanish sentence.

## Model

| member | source | states |
|---|---|---|
| DataAnalysis.Select | src/utils/dataAnalysis.ts:4-10 | a window filter returns an order-preserving subsequence of the input holding exactly the input's records that lie in the window |
| DataAnalysis.SelectCounts | src/utils/dataAnalysis.ts:4-10 | a window filter keeps every record of the window exactly as often as the input holds it, and no record outside it |
| DataAnalysis.SelectPair | src/utils/dataAnalysis.ts:4-10 | filtering two records keeps each one that lies in the window, in order |
| DataAnalysis.MonthBeforeIsPreviousMonth | src/utils/dataAnalysis.ts:6-9 | for months 1..12, the previous-month filter selects exactly the calendar month before the reference month: (year, month-1), or (year-1, 12) in January |
| DataAnalysis.SelectIdempotent | src/utils/dataAnalysis.ts:4 | filtering an already filtered list by the same window changes nothing |
| DataAnalysis.PercentChange | src/utils/dataAnalysis.ts:20-26 | the variation is 0 when the baseline is 0; otherwise variation × baseline = (current − baseline) × 100, it is positive iff current exceeds the baseline and negative iff it falls short, and it never drops below −100 |
| DataAnalysis.CalculateKPIs | src/utils/dataAnalysis.ts:3-35 | empty input gives all five fields 0; monthlyVariation is the percent change of the reference month's unit total over the previous month's, and yearlyVariation that of totalVehicles over the previous year's total; each is 0 when its baseline total is 0, and otherwise its sign follows the comparison of the current and baseline totals |
| DataAnalysis.Total | src/utils/dataAnalysis.ts:12 | the running `reduce` over the units equals the sum of every record's units |
| DataAnalysis.FoldUnitsSum | src/utils/dataAnalysis.ts:12 | the left fold adding units equals the sum of every record's units |
| DataAnalysis.KPIsCurrentYearOnly | src/utils/dataAnalysis.ts:4-14 | totalVehicles, totalBrands and totalModels depend only on the current-year records |
| DataAnalysis.KPIsCountDistinct | src/utils/dataAnalysis.ts:12-14 | totalVehicles is the current year's unit sum; totalBrands and totalModels are the numbers of distinct brands and distinct `brand-model` keys of that year |
| DataAnalysis.KPIsBounds | src/utils/dataAnalysis.ts:12-14 | on validated records, the brand and model counts never exceed the unit total, and all three totals are zero together |
| DataAnalysis.ModelKeyCollision | src/utils/dataAnalysis.ts:14 | brand "A-B"/model "C" and brand "A"/model "B-C" share the key "A-B-C": such a year counts 2 brands but 1 model |
| DataAnalysis.Entries | src/utils/dataAnalysis.ts:43-44 | `Object.entries(...).map(...)` gives one item per table entry, in order, with the entry's key as name and its measured value |
| DataAnalysis.RankedEntries | src/utils/dataAnalysis.ts:43-45 | sorting the entries of a table without repeated keys gives a non-increasing list with one item per key, carrying that key's value |
| DataAnalysis.UnitRankingFacts | src/utils/dataAnalysis.ts:37-45 | grouping by a key, summing units and sorting gives one item per distinct key, non-increasing, each carrying the units of exactly the records with its key, with all units accounted for |
| DataAnalysis.RankingTieOrder | src/utils/dataAnalysis.ts:43-45 | items with equal totals keep the order in which their keys first occur in the input |
| DataAnalysis.BrandRanking | src/utils/dataAnalysis.ts:37-47 | getBrandRanking is non-increasing and has min(limit, number of distinct brands) items for limit ≥ 0 |
| DataAnalysis.ModelRanking | src/utils/dataAnalysis.ts:49-60 | getModelRanking is non-increasing and has min(limit, number of distinct `brand model` names) items for limit ≥ 0 |
| DataAnalysis.VehicleTypeRanking | src/utils/dataAnalysis.ts:62-71 | getVehicleTypeRanking is non-increasing with one item per distinct vehicle type |
| DataAnalysis.ModelsPerBrand | src/utils/dataAnalysis.ts:73-85 | getModelsPerBrand is non-increasing with one item per distinct brand |
| DataAnalysis.BrandRankingFacts | src/utils/dataAnalysis.ts:37-47 | getBrandRanking: per-brand unit totals, distinct names, non-increasing values, min(limit, number of brands) items for limit ≥ 0, a value sum of at most all units, and exactly all units when the limit cuts nothing; every brand cut off has no more units than any brand kept |
| DataAnalysis.ModelRankingFacts | src/utils/dataAnalysis.ts:49-60 | getModelRanking: the same facts keyed by the `brand model` name, including that every model cut off has no more units than any model kept |
| DataAnalysis.RankingCutOff | src/utils/dataAnalysis.ts:37-46 | every key of the data left out of a truncated unit ranking has no more units than any item kept |
| DataAnalysis.SliceKeepsTop | src/utils/dataAnalysis.ts:45-46 | an item cut off a sorted ranking has no larger value than any item kept |
| DataAnalysis.SliceFacts | src/utils/dataAnalysis.ts:46 | truncating a ranking keeps a prefix: the order, the distinct names and the items carry over, and the sum can only shrink |
| DataAnalysis.VehicleTypeRankingFacts | src/utils/dataAnalysis.ts:62-71 | getVehicleTypeRanking: one item per type occurring in the data, per-type unit totals, non-increasing, together all units |
| DataAnalysis.ModelsPerBrandFacts | src/utils/dataAnalysis.ts:73-85 | getModelsPerBrand: one item per brand, non-increasing; each value is the number of distinct model names of the brand, between 1 and the brand's record count |
| DataAnalysis.BrandModels | src/utils/dataAnalysis.ts:74-80 | a brand's accumulated model set is the set of model names of exactly its records, and for a brand of the data has between 1 and that brand's record count elements |
| DataAnalysis.Percentage | src/utils/dataAnalysis.ts:148 | the percentage p of value in total satisfies p × total = value × 100, is non-negative, and is at most 100 when value ≤ total |
| DataAnalysis.ShareEntries | src/utils/dataAnalysis.ts:144-149 | one market-share item per brand-total entry, in order, with the entry's brand, units and percentage of the total |
| DataAnalysis.MarketShare | src/utils/dataAnalysis.ts:137-151 | getMarketShare is sorted by non-increasing units with one item per distinct brand |
| DataAnalysis.MarketShareNames | src/utils/dataAnalysis.ts:137-151 | getMarketShare: one item per brand of the data, names distinct, sorted by non-increasing units |
| DataAnalysis.MarketShareItem | src/utils/dataAnalysis.ts:139-149 | every market-share item carries its brand's units and those units as a percentage of all units |
| DataAnalysis.MarketShareTotals | src/utils/dataAnalysis.ts:137-151 | the values add up to all units; the percentages add up to 100 for non-empty input; empty input gives an empty list |
| DataAnalysis.PercentagesSum | src/utils/dataAnalysis.ts:148 | percentages of one total, over values that add up to that total, add up to 100 |
| DataAnalysis.Unseen | src/utils/dataAnalysis.ts:95-102 | the filter-then-map returns no more vehicles than records, and none with a known key |
| DataAnalysis.NewVehicles | src/utils/dataAnalysis.ts:87-103 | getNewVehicles returns at most as many vehicles as the reference month has records, and none whose `brand-model` key occurs in the previous year |
| DataAnalysis.UnseenSubsequence | src/utils/dataAnalysis.ts:95-102 | the filter-then-map returns an order-preserving subsequence of the mapped records |
| DataAnalysis.UnseenCount | src/utils/dataAnalysis.ts:95-102 | a vehicle with an unknown key is returned exactly as often as it occurs among the mapped records |
| DataAnalysis.UnseenFacts | src/utils/dataAnalysis.ts:95-102 | the filter-then-map keeps an order-preserving subsequence of the records, none with a known key, and keeps every record with an unknown key as often as it occurs |
| DataAnalysis.NewVehiclesFacts | src/utils/dataAnalysis.ts:87-103 | getNewVehicles returns an order-preserving subsequence of the reference month's records; no returned key occurs in the previous year; every reference-month record whose key is absent from the previous year is returned, duplicates included |
| DataAnalysis.UnseenComplete | src/utils/dataAnalysis.ts:95-102 | a record whose key is unknown yields a returned vehicle |
| DataAnalysis.UnseenAgainstKeys | src/utils/dataAnalysis.ts:91-96 | no returned vehicle shares its key with any earlier record |
| DataAnalysis.UnseenAgainstCounts | src/utils/dataAnalysis.ts:91-102 | a vehicle whose key no earlier record has is returned exactly as often as it occurs among the mapped current records |
| DataAnalysis.UnseenAgainstComplete | src/utils/dataAnalysis.ts:91-102 | every current record whose key no earlier record has is returned |
| DataAnalysis.NewVehiclesNonEmpty | src/utils/dataAnalysis.ts:87-103 | the list is non-empty iff some reference-month record has a `brand-model` key absent from the previous year |
| DataAnalysis.GrowthEntries | src/utils/dataAnalysis.ts:122-133 | one growth item per current-month brand, in order, carrying its units and the percent change over its previous-month total (0 when absent) |
| DataAnalysis.BrandGrowth | src/utils/dataAnalysis.ts:105-135 | getBrandGrowth is sorted by non-increasing growth with one item per distinct brand of the reference month |
| DataAnalysis.BrandGrowthNames | src/utils/dataAnalysis.ts:105-135 | getBrandGrowth names exactly the distinct brands of the reference month, once each (a brand seen only in the previous month is absent), sorted by non-increasing growth |
| DataAnalysis.BrandGrowthItem | src/utils/dataAnalysis.ts:112-133 | each brand's value is its reference-month units, its growth is the percent change over its previous-month units (0 when it sold nothing then), and it has no percentage |
| DataAnalysis.FirstGrowing | src/utils/dataAnalysis.ts:167 | `find` returns nothing iff no item has positive growth, and otherwise the first item with positive growth |
| DataAnalysis.GrowthInsightOfSorted | src/utils/dataAnalysis.ts:167-170 | on a list sorted by growth, the growth insight is emitted iff the head has positive growth, and then names the head and its growth |
| DataAnalysis.GrowthItemOf | src/utils/dataAnalysis.ts:122-134 | every brand of the reference month has an item in the growth ranking whose growth is that brand's month-over-month percent change |
| DataAnalysis.GrowthHead | src/utils/dataAnalysis.ts:105-135 | the head of the growth ranking is a brand of the reference month whose growth is the highest of all brands of that month |
| DataAnalysis.GenerateInsights | src/utils/dataAnalysis.ts:153-183 | at most four insights, in the fixed order leader, growth, vehicle type, new models, with each kind at most once |
| DataAnalysis.InsightKinds | src/utils/dataAnalysis.ts:159-182 | the insights of each kind are exactly those its own conditional step produces |
| DataAnalysis.RankingHead | src/utils/dataAnalysis.ts:43-45 | a unit ranking is non-empty iff the data is, and its head names a key of the data whose unit total is the largest |
| DataAnalysis.LeaderInsightFacts | src/utils/dataAnalysis.ts:154-164 | the market-leader insight appears iff the data is non-empty, and names a brand of the data with the most units, together with those units |
| DataAnalysis.TypeInsightFacts | src/utils/dataAnalysis.ts:156-175 | the vehicle-type insight appears iff the data is non-empty, and names a type with the most units, together with those units |
| DataAnalysis.GrowthInsightFacts | src/utils/dataAnalysis.ts:155-170 | the growth insight appears iff some brand of the reference month has positive growth, and then names a brand of that month with the highest growth, and that growth |
| DataAnalysis.GrowthLeaderFacts | src/utils/dataAnalysis.ts:105-135 | the growth insight built from getBrandGrowth exists iff some brand of the reference month has positive growth, and then names a brand of that month with the highest growth, and that growth |
| DataAnalysis.NewModelsInsightFacts | src/utils/dataAnalysis.ts:177-180 | the new-models insight appears iff some reference-month record has a key absent from the previous year, and reports the length of getNewVehicles |
| DataAnalysis.TwoNewRecords | src/utils/dataAnalysis.ts:87-103 | two records of the same month with no records in the previous year are both returned |
| DataAnalysis.NewModelsCountsRecords | src/utils/dataAnalysis.ts:179 | two reference-month records of the same new model are reported as 2 new models: the count is of records, not of distinct models |
| DataAnalysis.InsightsEmpty | src/utils/dataAnalysis.ts:153-183 | no insights iff no data, and any data yields at least two insights (leader and vehicle type) |
| DataAnalysis.GrowthExample | src/utils/dataAnalysis.ts:105-135 | Toyota with 100 units in October 2024 against 80 in September has growth 25 |
| DataAnalysis.MarketShareExample | src/utils/dataAnalysis.ts:137-151 | brands with 60 and 40 units get 60 and 40 percent, in that order |
| DataAnalysis.TypeTieExample | src/utils/dataAnalysis.ts:62-71 | SUV and Sedan with 300 units each are ranked in order of first appearance |
| Grouping.Dedup | src/utils/dataAnalysis.ts:13 | `new Set(keys)` holds each key once, exactly the keys of the input, and no more of them than there were |
| Grouping.DedupCardinality | src/utils/dataAnalysis.ts:13 | the size of `new Set(keys)` is the number of distinct keys |
| Grouping.DedupProjectCardinality | src/utils/dataAnalysis.ts:13-14 | the size of `new Set(records.map(key))` is the size of the set of the records' keys |
| Grouping.PutKeys | src/utils/dataAnalysis.ts:39 | `acc[k] = v` keeps the keys when k is present, and otherwise appends k at the end |
| Grouping.PutGet | src/utils/dataAnalysis.ts:39 | after `acc[k] = v`, k maps to v and every other key is unchanged |
| Grouping.GroupBy | src/utils/dataAnalysis.ts:38-41 | the grouped object is empty iff the input is, and never has more keys than the input has records |
| Grouping.GroupByKeys | src/utils/dataAnalysis.ts:38-43 | the grouped object's keys are the distinct keys of the input, in order of first occurrence |
| Grouping.GroupByGet | src/utils/dataAnalysis.ts:38-41 | each key's accumulator is the fold of exactly the records with that key, and a key never met reads as the initial value, as `acc[k]` falls back to 0 |
| Grouping.WhereEmpty | src/utils/dataAnalysis.ts:38-41 | no record has key k iff k is not among the input's keys |
| DataAnalysis.GroupBySum | src/utils/dataAnalysis.ts:38-41 | grouping by any key neither loses nor invents units: the group totals add up to all units |
| Sequences.Slice | src/utils/dataAnalysis.ts:46 | `slice(0, end)` is a prefix of length min(end, length) for end ≥ 0, and of length max(length + end, 0) for a negative end |
| Sorting.SortDesc | src/utils/dataAnalysis.ts:45 | the sorted list is non-increasing by the key and a permutation of the input |
| Sorting.SortDescStable | src/utils/dataAnalysis.ts:45 | for every key value, the items carrying it keep their input order |
| Sorting.SortDescSum | src/utils/dataAnalysis.ts:45 | sorting leaves every sum over the items unchanged |
| Sorting.SortDescDistinctBy | src/utils/dataAnalysis.ts:45 | sorting keeps names that were distinct distinct |

## Left out

- File upload, spreadsheet parsing (`xlsx`, `Date`), the React components and the
  dashboard's filter panel are not part of this model. The upload's validation rule
  is modelled as `ValidRecord`/`AllValid` and assumed only where a lemma needs it
  (`KPIsBounds`).
- `src/data/mockData.ts` is not part of this model: it generates data with
  `Math.random`.
- Text formatting in insights (`toLocaleString`, `toFixed(1)`, the Spanish
  sentences) is not modelled. An insight carries the values it would print.
- IEEE-754 floating point is not modelled. Percentages and variations are exact
  reals, so rounding in `(value / total) * 100` and in the growth ratios is not
  captured.
- Units are natural numbers, which is exact for every record the engine receives.
  The upload reads units with `parseInt` (src/components/FileUpload.tsx:38) and
  its validation keeps only positive counts. The generated sample data rounds with
  `Math.floor` (src/data/mockData.ts:47). No fractional units reach the engine.
- DataAnalysis.MarketShare: a non-empty input whose units sum to 0 gives `NaN`
  percentages in the source. The model requires a positive total for non-empty
  input, which validated records always have.
- Grouping keys are assumed to be ordinary strings, and every key follows plain
  insertion order. Three kinds of key behave differently in the source.
  - Integer-like keys (a brand named "123") come first in `Object.entries` and
    `Object.keys`, in ascending numeric order.
  - Names of `Object.prototype` members (`constructor`, `toString`, `valueOf`,
    `hasOwnProperty`, ...) make `acc[k] || 0` return the inherited function, so
    the unit sum becomes a string concatenation. In getModelsPerBrand
    (src/utils/dataAnalysis.ts:75-78), `!acc[k]` is false for such a key, and
    `.add` then throws a `TypeError`.
  - `__proto__` does not create an own property. The sums lose that key, and
    getModelsPerBrand throws a `TypeError` as well.
- Sequences.Slice: only integral limits are modelled. JavaScript truncates a
  fractional limit, and `NaN` behaves as 0. The source's default limit of 10 is
  the caller's argument here.
- DataAnalysis.GrowthInsight: the source's truthiness test on `growth` would also
  reject `NaN`, which cannot arise with exact reals.
- The previous-month filter is modelled literally. For months outside 1..12 it is
  as odd as the source's filter (`MonthBeforeIsPreviousMonth` covers 1..12 only).
