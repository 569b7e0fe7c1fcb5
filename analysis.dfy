/** The aggregation engine of the import dashboard (src/utils/dataAnalysis.ts): nine
    pure functions from a sequence of import records to KPIs, rankings, market
    shares, new-model detection, month-over-month brand growth and insights. */
module DataAnalysis {
  import opened Types
  import opened Sequences
  import opened Sorting
  import opened Grouping

  // ------------------------------------------------------------------------
  // Time windows
  // ------------------------------------------------------------------------

  /** The periods the engine filters by, relative to a reference year and month. */
  datatype Window =
    | Year(year: int)
    | Month(year: int, month: int)
    /** The month before (year, month), with January rolling back to December. */
    | MonthBefore(year: int, month: int)

  /** The filter predicates of the source, written as it writes them. */
  predicate InWindow(w: Window, r: ImportRecord) {
    match w
    case Year(y) => r.year == y
    case Month(y, m) => r.year == y && r.month == m
    case MonthBefore(y, m) =>
      (r.year == y && r.month == m - 1) || (m == 1 && r.year == y - 1 && r.month == 12)
  }

  /** `data.filter(...)` with the predicate of window w. */
  function Select(s: seq<ImportRecord>, w: Window): (t: seq<ImportRecord>)
    ensures |t| <= |s|
    ensures forall r :: r in t <==> r in s && InWindow(w, r)
    ensures IsSubsequence(t, s)
  {
    if s == [] then []
    else
      var p := s[..|s| - 1];
      var r := s[|s| - 1];
      var q := Select(p, w);
      assert s == p + [r];
      if InWindow(w, r) then
        SubsequenceSnoc(q, p, r);
        q + [r]
      else
        SubsequenceExtend(q, p, r);
        q
  }

  /** A window filter keeps every record of the window exactly as often as the input
      holds it. */
  lemma {:induction false} SelectCounts(s: seq<ImportRecord>, w: Window)
    ensures forall x :: multiset(Select(s, w))[x] == if InWindow(w, x) then multiset(s)[x] else 0
  {
    if s != [] {
      var p := s[..|s| - 1];
      SelectCounts(p, w);
      assert s == p + [s[|s| - 1]];
    }
  }

  /** Select on two records keeps each one that falls in the window, in order. */
  lemma SelectPair(a: ImportRecord, b: ImportRecord, w: Window)
    ensures Select([a, b], w) == (if InWindow(w, a) then [a] else []) + (if InWindow(w, b) then [b] else [])
  {
    assert [a, b][..1] == [a];
    assert [a][..0] == [];
  }

  /** The calendar month before (year, month). */
  function PreviousMonth(year: int, month: int): (int, int) {
    if month == 1 then (year - 1, 12) else (year, month - 1)
  }

  /** For real months, the source's previous-month filter selects exactly the
      records of the calendar month before the reference month. */
  lemma MonthBeforeIsPreviousMonth(y: int, m: int, r: ImportRecord)
    requires 1 <= m <= 12 && 1 <= r.month <= 12
    ensures InWindow(MonthBefore(y, m), r) <==> (r.year, r.month) == PreviousMonth(y, m)
  {
  }

  lemma {:induction false} SelectIdempotent(s: seq<ImportRecord>, w: Window)
    ensures Select(Select(s, w), w) == Select(s, w)
  {
    if s != [] {
      var p := s[..|s| - 1];
      var r := s[|s| - 1];
      SelectIdempotent(p, w);
      var t := Select(p, w) + (if InWindow(w, r) then [r] else []);
      if InWindow(w, r) {
        assert t[..|t| - 1] == Select(p, w);
      } else {
        assert t == Select(p, w);
      }
    }
  }

  // ------------------------------------------------------------------------
  // Keys and accumulators
  // ------------------------------------------------------------------------

  function BrandOf(r: ImportRecord): string { r.brand }

  /** `${marca} ${modelo}`: a model's name in the model ranking. */
  function ModelNameOf(r: ImportRecord): string { r.brand + " " + r.model }

  /** `${marca}-${modelo}`: a model's identity in the KPIs and in new-model detection. */
  function ModelKeyOf(r: ImportRecord): string { r.brand + "-" + r.model }

  function TypeOf(r: ImportRecord): string { r.vehicleType }

  function AddUnits(sum: nat, r: ImportRecord): nat { sum + r.units }

  function AddModel(models: set<string>, r: ImportRecord): set<string> { models + {r.model} }

  /** `data.reduce((sum, record) => sum + record.unidades, 0)`. */
  function Total(s: seq<ImportRecord>): (n: nat)
    ensures n as real == SumOf(s, RecordUnits)
  {
    FoldUnitsSum(s);
    Fold(s, 0, AddUnits)
  }

  function RecordUnits(r: ImportRecord): real { r.units as real }

  /** The running sum from the left equals the sum of every record's units. */
  lemma {:induction false} FoldUnitsSum(s: seq<ImportRecord>)
    ensures Fold(s, 0, AddUnits) as real == SumOf(s, RecordUnits)
  {
    if s != [] {
      var p := s[..|s| - 1];
      FoldUnitsSum(p);
      SumOfAppend(p, [s[|s| - 1]], RecordUnits);
      assert p + [s[|s| - 1]] == s;
    }
  }

  /** With validated records every record carries at least one unit. */
  lemma {:induction false} TotalAtLeastCount(s: seq<ImportRecord>)
    requires AllValid(s)
    ensures Total(s) >= |s|
  {
    if s != [] {
      TotalAtLeastCount(s[..|s| - 1]);
    }
  }

  /** The models a sequence of records mentions. */
  function ModelsIn(s: seq<ImportRecord>): set<string> {
    set r | r in s :: r.model
  }

  lemma {:induction false} FoldModels(s: seq<ImportRecord>)
    ensures Fold(s, {}, AddModel) == ModelsIn(s)
  {
    if s != [] {
      var p := s[..|s| - 1];
      FoldModels(p);
      assert s == p + [s[|s| - 1]];
      assert ModelsIn(s) == ModelsIn(p) + {s[|s| - 1].model};
    }
  }

  lemma {:induction false} ModelsInBounds(s: seq<ImportRecord>)
    ensures |ModelsIn(s)| <= |s|
    ensures s != [] ==> |ModelsIn(s)| >= 1
  {
    if s != [] {
      var p := s[..|s| - 1];
      ModelsInBounds(p);
      assert s == p + [s[|s| - 1]];
      assert ModelsIn(s) == ModelsIn(p) + {s[|s| - 1].model};
      assert s[|s| - 1].model in ModelsIn(s);
    }
  }

  // ------------------------------------------------------------------------
  // Percent change
  // ------------------------------------------------------------------------

  /** `previous > 0 ? ((current - previous) / previous) * 100 : 0`: the growth of
      current over previous in percent, and 0 when there is no baseline. */
  function PercentChange(current: nat, previous: nat): (p: real)
    ensures previous == 0 ==> p == 0.0
    ensures previous > 0 ==> p * (previous as real) == (current as real - previous as real) * 100.0
    ensures previous > 0 ==> (p > 0.0 <==> current > previous) && (p < 0.0 <==> current < previous)
    ensures p >= -100.0
  {
    if previous > 0 then ((current as real - previous as real) / previous as real) * 100.0 else 0.0
  }

  // ------------------------------------------------------------------------
  // calculateKPIs
  // ------------------------------------------------------------------------

  /** calculateKPIs(data, currentYear, currentMonth). `new Set(keys).size` is the
      length of the de-duplicated key sequence. */
  function CalculateKPIs(s: seq<ImportRecord>, year: int, month: int): (k: KPIData)
    ensures s == [] ==> k == KPIData(0, 0, 0, 0.0, 0.0)
    ensures k.monthlyVariation == PercentChange(Total(Select(s, Month(year, month))), Total(Select(s, MonthBefore(year, month))))
    ensures k.yearlyVariation == PercentChange(k.totalVehicles, Total(Select(s, Year(year - 1))))
    ensures Total(Select(s, MonthBefore(year, month))) == 0 ==> k.monthlyVariation == 0.0
    ensures Total(Select(s, Year(year - 1))) == 0 ==> k.yearlyVariation == 0.0
    ensures var cur, prev := Total(Select(s, Month(year, month))), Total(Select(s, MonthBefore(year, month)));
      prev > 0 ==> (k.monthlyVariation > 0.0 <==> cur > prev) && (k.monthlyVariation < 0.0 <==> cur < prev)
    ensures var prev := Total(Select(s, Year(year - 1)));
      prev > 0 ==> (k.yearlyVariation > 0.0 <==> k.totalVehicles > prev) && (k.yearlyVariation < 0.0 <==> k.totalVehicles < prev)
  {
    var currentYearData := Select(s, Year(year));
    var currentMonthData := Select(s, Month(year, month));
    var previousMonthData := Select(s, MonthBefore(year, month));
    var previousYearData := Select(s, Year(year - 1));
    var totalVehicles := Total(currentYearData);
    KPIData(
      totalVehicles,
      |Dedup(Project(currentYearData, BrandOf))|,
      |Dedup(Project(currentYearData, ModelKeyOf))|,
      PercentChange(Total(currentMonthData), Total(previousMonthData)),
      PercentChange(totalVehicles, Total(previousYearData)))
  }

  /** The three totals are those of the current-year records: records of any other
      year never change them. */
  lemma KPIsCurrentYearOnly(s: seq<ImportRecord>, year: int, month: int)
    ensures var k, k' := CalculateKPIs(s, year, month), CalculateKPIs(Select(s, Year(year)), year, month);
      k.totalVehicles == k'.totalVehicles && k.totalBrands == k'.totalBrands && k.totalModels == k'.totalModels
  {
    SelectIdempotent(s, Year(year));
  }

  /** totalVehicles sums the units of the reference year; totalBrands and totalModels
      count the distinct brands and distinct `brand-model` keys of that year. */
  lemma KPIsCountDistinct(s: seq<ImportRecord>, year: int, month: int)
    ensures var k, cy := CalculateKPIs(s, year, month), Select(s, Year(year));
      && k.totalVehicles == Total(cy)
      && k.totalBrands == |KeySet(cy, BrandOf)|
      && k.totalModels == |KeySet(cy, ModelKeyOf)|
  {
    var cy := Select(s, Year(year));
    DedupProjectCardinality(cy, BrandOf);
    DedupProjectCardinality(cy, ModelKeyOf);
  }

  /** On validated records, each distinct brand and model of the year accounts for at
      least one unit, and the three totals are zero together. */
  lemma KPIsBounds(s: seq<ImportRecord>, year: int, month: int)
    requires AllValid(s)
    ensures var k := CalculateKPIs(s, year, month);
      && k.totalBrands <= k.totalVehicles
      && k.totalModels <= k.totalVehicles
      && (k.totalVehicles == 0 <==> k.totalBrands == 0)
      && (k.totalVehicles == 0 <==> k.totalModels == 0)
  {
    var cy := Select(s, Year(year));
    assert AllValid(cy) by {
      forall i | 0 <= i < |cy| ensures ValidRecord(cy[i]) {
        assert cy[i] in s;
      }
    }
    TotalAtLeastCount(cy);
    if cy != [] {
      assert cy[0].brand in Project(cy, BrandOf);
      assert ModelKeyOf(cy[0]) in Project(cy, ModelKeyOf);
    }
  }

  /** The model key is a plain concatenation, so two different brand/model pairs
      can share it: such a year counts two brands but a single model. */
  lemma ModelKeyCollision()
    ensures var a := ImportRecord("1", "", "A-B", "C", "SUV", 1, 2024, 10);
            var b := ImportRecord("2", "", "A", "B-C", "SUV", 1, 2024, 10);
            var k := CalculateKPIs([a, b], 2024, 10);
      (a.brand, a.model) != (b.brand, b.model) && ModelKeyOf(a) == ModelKeyOf(b)
      && k.totalBrands == 2 && k.totalModels == 1
  {
    var a := ImportRecord("1", "", "A-B", "C", "SUV", 1, 2024, 10);
    var b := ImportRecord("2", "", "A", "B-C", "SUV", 1, 2024, 10);
    var s := [a, b];
    SelectPair(a, b, Year(2024));
    assert Select(s, Year(2024)) == s;
    var k := CalculateKPIs(s, 2024, 10);
    assert k.totalBrands == |Dedup(Project(s, BrandOf))|;
    assert k.totalModels == |Dedup(Project(s, ModelKeyOf))|;
    CollidingKeys(a, b);
  }

  lemma CollidingKeys(a: ImportRecord, b: ImportRecord)
    requires a.brand == "A-B" && a.model == "C" && b.brand == "A" && b.model == "B-C"
    ensures |Dedup(Project([a, b], BrandOf))| == 2 && |Dedup(Project([a, b], ModelKeyOf))| == 1
  {
    assert ModelKeyOf(a) == "A-B-C" == ModelKeyOf(b);
    assert Project([a, b], BrandOf) == ["A-B", "A"];
    assert Project([a, b], ModelKeyOf) == ["A-B-C", "A-B-C"];
    assert ["A-B", "A"][..1] == ["A-B"];
    assert ["A-B-C", "A-B-C"][..1] == ["A-B-C"];
  }

  // ------------------------------------------------------------------------
  // Rankings: getBrandRanking, getModelRanking, getVehicleTypeRanking,
  // getModelsPerBrand
  // ------------------------------------------------------------------------

  function NameOf(i: RankingItem): string { i.name }

  /** The sort key of the unit rankings (`b.value - a.value`). */
  function ByValue(i: RankingItem): real { i.value as real }

  /** The sort key of the growth ranking (`(b.growth || 0) - (a.growth || 0)`). */
  function ByGrowth(i: RankingItem): real {
    match i.growth
    case Some(g) => g
    case None => 0.0
  }

  function Names(r: seq<RankingItem>): seq<string> { Project(r, NameOf) }

  function SumValue(sum: nat): nat { sum }

  function ModelCount(models: set<string>): nat { |models| }

  /** `Object.entries(acc).map(([name, v]) => ({ name, value: measure(v) }))`. */
  function Entries<V>(t: seq<(string, V)>, measure: V -> nat): (items: seq<RankingItem>)
    ensures |items| == |t|
    ensures forall i :: 0 <= i < |t| ==> items[i] == RankingItem(t[i].0, measure(t[i].1), None, None)
  {
    if t == [] then [] else [RankingItem(t[0].0, measure(t[0].1), None, None)] + Entries(t[1..], measure)
  }

  /** Records grouped by key with their units summed, sorted by descending total:
      the pipeline the three unit rankings share. */
  function UnitRanking(s: seq<ImportRecord>, key: ImportRecord -> string): seq<RankingItem> {
    SortDesc(Entries(GroupBy(s, key, 0, AddUnits), SumValue), ByValue)
  }

  /** getBrandRanking(data, limit). */
  function BrandRanking(s: seq<ImportRecord>, limit: int): (r: seq<RankingItem>)
    ensures SortedDesc(r, ByValue)
    ensures limit >= 0 ==> |r| == Min(limit, |Dedup(Project(s, BrandOf))|)
  {
    GroupByKeys(s, BrandOf, 0, AddUnits);
    Slice(UnitRanking(s, BrandOf), limit)
  }

  /** getModelRanking(data, limit). */
  function ModelRanking(s: seq<ImportRecord>, limit: int): (r: seq<RankingItem>)
    ensures SortedDesc(r, ByValue)
    ensures limit >= 0 ==> |r| == Min(limit, |Dedup(Project(s, ModelNameOf))|)
  {
    GroupByKeys(s, ModelNameOf, 0, AddUnits);
    Slice(UnitRanking(s, ModelNameOf), limit)
  }

  /** getVehicleTypeRanking(data). */
  function VehicleTypeRanking(s: seq<ImportRecord>): (r: seq<RankingItem>)
    ensures SortedDesc(r, ByValue)
    ensures |r| == |Dedup(Project(s, TypeOf))|
  {
    GroupByKeys(s, TypeOf, 0, AddUnits);
    UnitRanking(s, TypeOf)
  }

  /** getModelsPerBrand(data). */
  function ModelsPerBrand(s: seq<ImportRecord>): (r: seq<RankingItem>)
    ensures SortedDesc(r, ByValue)
    ensures |r| == |Dedup(Project(s, BrandOf))|
  {
    GroupByKeys(s, BrandOf, {}, AddModel);
    SortDesc(Entries(GroupBy(s, BrandOf, {}, AddModel), ModelCount), ByValue)
  }

  /** Sorting a sequence whose elements have distinct names keeps exactly those
      elements and keeps the names distinct. */
  lemma SortedByNameFacts<T>(items: seq<T>, key: T -> real, name: T -> string)
    requires DistinctBy(items, name)
    ensures var r := SortDesc(items, key);
      && |r| == |items|
      && Distinct(Project(r, name))
      && (forall x :: x in r <==> x in items)
      && (forall k :: k in Project(r, name) <==> k in Project(items, name))
  {
    var r := SortDesc(items, key);
    SortDescDistinctBy(items, key, name);
    SortDescElements(items, key);
    forall k | k in Project(r, name) ensures k in Project(items, name) {
      var i :| 0 <= i < |r| && name(r[i]) == k;
      assert r[i] in r;
      var j :| 0 <= j < |items| && items[j] == r[i];
    }
    forall k | k in Project(items, name) ensures k in Project(r, name) {
      var j :| 0 <= j < |items| && name(items[j]) == k;
      assert items[j] in items;
      var i :| 0 <= i < |r| && r[i] == items[j];
    }
  }

  /** The entries of a table without repeated keys, sorted by value: one item per
      key, carrying that key's measured accumulator. */
  lemma RankedEntries<V>(t: seq<(string, V)>, measure: V -> nat, dflt: V)
    requires Distinct(Keys(t))
    ensures var r := SortDesc(Entries(t, measure), ByValue);
      && SortedDesc(r, ByValue)
      && |r| == |t|
      && Distinct(Names(r))
      && (forall k :: k in Names(r) <==> k in Keys(t))
      && (forall i :: 0 <= i < |r| ==>
            r[i].value == measure(Get(t, r[i].name, dflt)) && r[i].percentage == None && r[i].growth == None)
  {
    var items := Entries(t, measure);
    var r := SortDesc(items, ByValue);
    assert Project(items, NameOf) == Keys(t);
    SortedByNameFacts(items, ByValue, NameOf);
    forall i | 0 <= i < |r|
      ensures r[i].value == measure(Get(t, r[i].name, dflt)) && r[i].percentage == None && r[i].growth == None
    {
      assert r[i] in r;
      RankedEntry(t, measure, dflt, r[i]);
    }
  }

  /** Any entry is the entry of its own key. */
  lemma RankedEntry<V>(t: seq<(string, V)>, measure: V -> nat, dflt: V, x: RankingItem)
    requires Distinct(Keys(t))
    requires x in Entries(t, measure)
    ensures x == RankingItem(x.name, measure(Get(t, x.name, dflt)), None, None)
  {
    var items := Entries(t, measure);
    var p :| 0 <= p < |items| && items[p] == x;
    GetEntry(t, p, dflt);
  }

  /** The sum of the entries' unit totals. */
  function TableSum(t: seq<(string, nat)>): nat {
    if t == [] then 0 else t[0].1 + TableSum(t[1..])
  }

  lemma {:induction false} PutSum(t: seq<(string, nat)>, k: string, r: ImportRecord)
    ensures TableSum(Put(t, k, AddUnits(Get(t, k, 0), r))) == TableSum(t) + r.units
  {
    if t != [] && t[0].0 != k {
      PutSum(t[1..], k, r);
    }
  }

  /** Grouping moves units between keys but neither loses nor invents any. */
  lemma {:induction false} GroupBySum(s: seq<ImportRecord>, key: ImportRecord -> string)
    ensures TableSum(GroupBy(s, key, 0, AddUnits)) == Total(s)
  {
    if s != [] {
      var p := s[..|s| - 1];
      var r := s[|s| - 1];
      GroupBySum(p, key);
      PutSum(GroupBy(p, key, 0, AddUnits), key(r), r);
    }
  }

  lemma {:induction false} EntriesSum(t: seq<(string, nat)>)
    ensures SumOf(Entries(t, SumValue), ByValue) == TableSum(t) as real
  {
    if t != [] {
      EntriesSum(t[1..]);
    }
  }

  /** The shared facts of the unit rankings before truncation: one item per distinct
      key, each carrying the units of exactly the records with that key, in
      non-increasing order, with all units accounted for. */
  lemma UnitRankingFacts(s: seq<ImportRecord>, key: ImportRecord -> string)
    ensures var r := UnitRanking(s, key);
      && SortedDesc(r, ByValue)
      && Distinct(Names(r))
      && |r| == |Dedup(Project(s, key))|
      && (forall k :: k in Names(r) <==> k in Project(s, key))
      && (forall i :: 0 <= i < |r| ==>
            r[i].value == Total(Where(s, key, r[i].name)) && r[i].percentage == None && r[i].growth == None)
      && SumOf(r, ByValue) == Total(s) as real
  {
    var t := GroupBy(s, key, 0, AddUnits);
    GroupByKeys(s, key, 0, AddUnits);
    var r := UnitRanking(s, key);
    RankedEntries(t, SumValue, 0);
    forall i | 0 <= i < |r| ensures r[i].value == Total(Where(s, key, r[i].name)) {
      GroupByGet(s, key, 0, AddUnits, r[i].name);
    }
    GroupBySum(s, key);
    EntriesSum(t);
    SortDescSum(Entries(t, SumValue), ByValue, ByValue);
  }

  /** Ties keep first-encounter order: the items sharing a total appear in the
      ranking exactly as they appear among the grouped entries, whose names are
      the keys in order of first occurrence in the input. */
  lemma RankingTieOrder(s: seq<ImportRecord>, key: ImportRecord -> string, v: real)
    ensures var entries := Entries(GroupBy(s, key, 0, AddUnits), SumValue);
      && Names(entries) == Dedup(Project(s, key))
      && WithKey(UnitRanking(s, key), ByValue, v) == WithKey(entries, ByValue, v)
  {
    var t := GroupBy(s, key, 0, AddUnits);
    GroupByKeys(s, key, 0, AddUnits);
    assert Names(Entries(t, SumValue)) == Keys(t);
    SortDescStable(Entries(t, SumValue), ByValue, v);
  }

  /** getBrandRanking: per-brand unit totals, distinct names, non-increasing values,
      min(limit, number of brands) items for a non-negative limit, and a total of at
      most all units, reached when nothing is cut off. */
  lemma BrandRankingFacts(s: seq<ImportRecord>, limit: int)
    ensures var r, brands := BrandRanking(s, limit), Dedup(Project(s, BrandOf));
      && SortedDesc(r, ByValue)
      && Distinct(Names(r))
      && (forall i :: 0 <= i < |r| ==> r[i].value == Total(Where(s, BrandOf, r[i].name)))
      && (forall i :: 0 <= i < |r| ==> r[i].name in brands)
      && (limit >= 0 ==> |r| == Min(limit, |brands|))
      && SumOf(r, ByValue) <= Total(s) as real
      && (limit >= |brands| ==> SumOf(r, ByValue) == Total(s) as real && |r| == |brands|)
      && (forall k, i :: k in Project(s, BrandOf) && k !in Names(r) && 0 <= i < |r| ==>
            Total(Where(s, BrandOf, k)) <= r[i].value)
  {
    UnitRankingFacts(s, BrandOf);
    SliceFacts(UnitRanking(s, BrandOf), limit);
    RankingCutOff(s, BrandOf, limit);
  }

  /** getModelRanking: the same facts keyed by the `brand model` name. */
  lemma ModelRankingFacts(s: seq<ImportRecord>, limit: int)
    ensures var r, models := ModelRanking(s, limit), Dedup(Project(s, ModelNameOf));
      && SortedDesc(r, ByValue)
      && Distinct(Names(r))
      && (forall i :: 0 <= i < |r| ==> r[i].value == Total(Where(s, ModelNameOf, r[i].name)))
      && (forall i :: 0 <= i < |r| ==> r[i].name in models)
      && (limit >= 0 ==> |r| == Min(limit, |models|))
      && SumOf(r, ByValue) <= Total(s) as real
      && (limit >= |models| ==> SumOf(r, ByValue) == Total(s) as real && |r| == |models|)
      && (forall k, i :: k in Project(s, ModelNameOf) && k !in Names(r) && 0 <= i < |r| ==>
            Total(Where(s, ModelNameOf, k)) <= r[i].value)
  {
    UnitRankingFacts(s, ModelNameOf);
    SliceFacts(UnitRanking(s, ModelNameOf), limit);
    RankingCutOff(s, ModelNameOf, limit);
  }

  /** Truncation keeps the top: every key left out of a cut-off unit ranking has
      no more units than any item kept. */
  lemma RankingCutOff(s: seq<ImportRecord>, key: ImportRecord -> string, limit: int)
    ensures var q := Slice(UnitRanking(s, key), limit);
      forall k, i :: k in Project(s, key) && k !in Names(q) && 0 <= i < |q| ==>
        Total(Where(s, key, k)) <= q[i].value
  {
    var r := UnitRanking(s, key);
    var q := Slice(r, limit);
    UnitRankingFacts(s, key);
    SliceKeepsTop(r, limit);
    forall k, i | k in Project(s, key) && k !in Names(q) && 0 <= i < |q|
      ensures Total(Where(s, key, k)) <= q[i].value
    {
      assert k in Names(r);
      var j :| 0 <= j < |r| && Names(r)[j] == k;
      assert r[j].name == k;
    }
  }

  /** An item cut off a sorted ranking has no larger value than any item kept. */
  lemma SliceKeepsTop(r: seq<RankingItem>, limit: int)
    requires SortedDesc(r, ByValue)
    ensures var q := Slice(r, limit);
      forall i, j :: 0 <= i < |q| && 0 <= j < |r| && r[j].name !in Names(q) ==> r[j].value <= q[i].value
  {
    var q := Slice(r, limit);
    forall i, j | 0 <= i < |q| && 0 <= j < |r| && r[j].name !in Names(q)
      ensures r[j].value <= q[i].value
    {
      assert forall m :: 0 <= m < |q| ==> Names(q)[m] == r[m].name;
      assert |q| <= j;
      assert ByValue(r[i]) >= ByValue(r[j]);
    }
  }

  /** Truncation keeps a prefix: order, distinct names and the values carry over,
      and the sum can only shrink. */
  lemma SliceFacts(r: seq<RankingItem>, limit: int)
    requires SortedDesc(r, ByValue) && Distinct(Names(r))
    ensures var q := Slice(r, limit);
      && SortedDesc(q, ByValue)
      && Distinct(Names(q))
      && (forall i :: 0 <= i < |q| ==> q[i] == r[i])
      && SumOf(q, ByValue) <= SumOf(r, ByValue)
      && (limit >= |r| ==> q == r)
  {
    var q := Slice(r, limit);
    assert forall i :: 0 <= i < |q| ==> Names(q)[i] == Names(r)[i];
    SumOfPrefix(r, ByValue, |q|);
  }

  /** getVehicleTypeRanking: per-type unit totals, one item per type, non-increasing,
      and together all units. */
  lemma VehicleTypeRankingFacts(s: seq<ImportRecord>)
    ensures var r := VehicleTypeRanking(s);
      && SortedDesc(r, ByValue)
      && Distinct(Names(r))
      && (forall k :: k in Names(r) <==> k in Project(s, TypeOf))
      && (forall i :: 0 <= i < |r| ==> r[i].value == Total(Where(s, TypeOf, r[i].name)))
      && SumOf(r, ByValue) == Total(s) as real
  {
    UnitRankingFacts(s, TypeOf);
  }

  /** getModelsPerBrand: one item per brand whose value is the number of distinct
      model names of that brand, between 1 and the brand's record count, in
      non-increasing order. */
  lemma ModelsPerBrandFacts(s: seq<ImportRecord>)
    ensures var r := ModelsPerBrand(s);
      && SortedDesc(r, ByValue)
      && Distinct(Names(r))
      && |r| == |Dedup(Project(s, BrandOf))|
      && (forall k :: k in Names(r) <==> k in Project(s, BrandOf))
      && (forall i :: 0 <= i < |r| ==>
            && r[i].value == |ModelsIn(Where(s, BrandOf, r[i].name))|
            && 1 <= r[i].value <= |Where(s, BrandOf, r[i].name)|)
  {
    var t := GroupBy(s, BrandOf, {}, AddModel);
    GroupByKeys(s, BrandOf, {}, AddModel);
    var r := ModelsPerBrand(s);
    RankedEntries(t, ModelCount, {});
    forall i | 0 <= i < |r|
      ensures r[i].value == |ModelsIn(Where(s, BrandOf, r[i].name))|
      ensures 1 <= r[i].value <= |Where(s, BrandOf, r[i].name)|
    {
      assert r[i].name in Names(r);
      BrandModels(s, r[i].name);
    }
  }

  /** The model set a brand accumulates is the set of model names of its records;
      for a brand of the data it has between one and that many records' worth. */
  lemma BrandModels(s: seq<ImportRecord>, b: string)
    ensures Get(GroupBy(s, BrandOf, {}, AddModel), b, {}) == ModelsIn(Where(s, BrandOf, b))
    ensures b in Project(s, BrandOf) ==> 1 <= |ModelsIn(Where(s, BrandOf, b))| <= |Where(s, BrandOf, b)|
  {
    var w := Where(s, BrandOf, b);
    GroupByGet(s, BrandOf, {}, AddModel, b);
    FoldModels(w);
    WhereEmpty(s, BrandOf, b);
    ModelsInBounds(w);
  }

  // ------------------------------------------------------------------------
  // getMarketShare
  // ------------------------------------------------------------------------

  function ShareName(i: MarketShareData): string { i.name }
  function ShareValue(i: MarketShareData): real { i.value as real }
  function SharePercentage(i: MarketShareData): real { i.percentage }

  /** `(value / total) * 100`: value's share of total, in percent. */
  function Percentage(value: nat, total: nat): (p: real)
    requires total > 0
    ensures p * total as real == value as real * 100.0
    ensures 0.0 <= p && (value <= total ==> p <= 100.0)
  {
    (value as real / total as real) * 100.0
  }

  /** The percentage is proportional to the value, with factor 100 / total. */
  lemma PercentageScaled(value: nat, total: nat)
    requires total > 0
    ensures Percentage(value, total) == value as real * (100.0 / total as real)
  {
  }

  /** `Object.entries(brandTotals).map(([name, value]) => ({ name, value,
      percentage: (value / total) * 100 }))`. */
  function ShareEntries(t: seq<(string, nat)>, total: nat): (items: seq<MarketShareData>)
    requires t == [] || total > 0
    ensures |items| == |t|
    ensures forall i :: 0 <= i < |t| ==> items[i] == MarketShareData(t[i].0, t[i].1, Percentage(t[i].1, total))
  {
    if t == [] then []
    else [MarketShareData(t[0].0, t[0].1, Percentage(t[0].1, total))] + ShareEntries(t[1..], total)
  }

  /** getMarketShare(data). A non-empty input whose units sum to zero divides by zero
      in the source; validated records always carry units, so it is excluded. */
  function MarketShare(s: seq<ImportRecord>): (r: seq<MarketShareData>)
    requires s == [] || Total(s) > 0
    ensures SortedDesc(r, ShareValue)
    ensures |r| == |Dedup(Project(s, BrandOf))|
  {
    var total := Total(s);
    var brandTotals := GroupBy(s, BrandOf, 0, AddUnits);
    GroupByKeys(s, BrandOf, 0, AddUnits);
    SortDesc(ShareEntries(brandTotals, total), ShareValue)
  }

  lemma {:induction false} ShareEntriesSum(t: seq<(string, nat)>, total: nat)
    requires t == [] || total > 0
    ensures SumOf(ShareEntries(t, total), ShareValue) == TableSum(t) as real
  {
    if t != [] {
      ShareEntriesSum(t[1..], total);
    }
  }

  /** getMarketShare: one item per brand, in non-increasing order of units. */
  lemma MarketShareNames(s: seq<ImportRecord>)
    requires s == [] || Total(s) > 0
    ensures var r := MarketShare(s);
      && SortedDesc(r, ShareValue)
      && Distinct(Project(r, ShareName))
      && |r| == |Dedup(Project(s, BrandOf))|
      && (forall k :: k in Project(r, ShareName) <==> k in Project(s, BrandOf))
  {
    var t := GroupBy(s, BrandOf, 0, AddUnits);
    GroupByKeys(s, BrandOf, 0, AddUnits);
    var items := ShareEntries(t, Total(s));
    assert Project(items, ShareName) == Keys(t);
    SortedByNameFacts(items, ShareValue, ShareName);
  }

  /** getMarketShare: every item carries its brand's units and that brand's share of
      all units in percent. */
  lemma MarketShareItem(s: seq<ImportRecord>, i: nat)
    requires s == [] || Total(s) > 0
    requires i < |MarketShare(s)|
    ensures var r, total := MarketShare(s), Total(s);
      && total > 0
      && r[i].value == Total(Where(s, BrandOf, r[i].name))
      && r[i].percentage == Percentage(r[i].value, total)
  {
    var total := Total(s);
    var t := GroupBy(s, BrandOf, 0, AddUnits);
    GroupByKeys(s, BrandOf, 0, AddUnits);
    var items := ShareEntries(t, total);
    var x := MarketShare(s)[i];
    assert x in items by {
      SortDescElements(items, ShareValue);
    }
    var p :| 0 <= p < |items| && items[p] == x;
    GetEntry(t, p, 0);
    GroupByGet(s, BrandOf, 0, AddUnits, x.name);
  }

  /** getMarketShare: the values add up to all units, the percentages to 100 for a
      non-empty input, and an empty input gives no items. */
  lemma MarketShareTotals(s: seq<ImportRecord>)
    requires s == [] || Total(s) > 0
    ensures var r, total := MarketShare(s), Total(s);
      && SumOf(r, ShareValue) == total as real
      && (s != [] ==> SumOf(r, SharePercentage) == 100.0)
      && (s == [] ==> r == [])
  {
    var total := Total(s);
    var t := GroupBy(s, BrandOf, 0, AddUnits);
    var r := MarketShare(s);
    GroupBySum(s, BrandOf);
    ShareEntriesSum(t, total);
    SortDescSum(ShareEntries(t, total), ShareValue, ShareValue);
    if s != [] {
      forall x | x in r ensures x.percentage == Percentage(x.value, total) {
        var i :| 0 <= i < |r| && r[i] == x;
        MarketShareItem(s, i);
      }
      PercentagesSum(r, total);
    }
  }

  /** Percentages of one total whose values add up to that total add up to 100. */
  lemma PercentagesSum(r: seq<MarketShareData>, total: nat)
    requires total > 0
    requires forall x :: x in r ==> x.percentage == Percentage(x.value, total)
    requires SumOf(r, ShareValue) == total as real
    ensures SumOf(r, SharePercentage) == 100.0
  {
    PercentagesScaled(r, total);
    WholeIsHundredPercent(total);
  }

  /** Percentages of one total sum to the summed values scaled by 100 / total. */
  lemma PercentagesScaled(r: seq<MarketShareData>, total: nat)
    requires total > 0
    requires forall x :: x in r ==> x.percentage == Percentage(x.value, total)
    ensures SumOf(r, SharePercentage) == SumOf(r, ShareValue) * (100.0 / total as real)
  {
    var c := 100.0 / total as real;
    forall x | x in r ensures SharePercentage(x) == ShareValue(x) * c {
      PercentageScaled(x.value, total);
    }
    SumOfScaled(r, ShareValue, SharePercentage, c);
  }

  lemma WholeIsHundredPercent(total: nat)
    requires total > 0
    ensures total as real * (100.0 / total as real) == 100.0
  {
  }

  // ------------------------------------------------------------------------
  // getNewVehicles
  // ------------------------------------------------------------------------

  function ToNewVehicle(r: ImportRecord): NewVehicle {
    NewVehicle(r.brand, r.model, r.vehicleType, r.units)
  }

  /** The `brand-model` key of a detected vehicle. */
  function VehicleKey(v: NewVehicle): string { v.brand + "-" + v.model }

  /** `records.map(ToNewVehicle)`. */
  function Vehicles(s: seq<ImportRecord>): (vs: seq<NewVehicle>)
    ensures |vs| == |s|
    ensures forall i :: 0 <= i < |s| ==> vs[i] == ToNewVehicle(s[i])
  {
    seq(|s|, i requires 0 <= i < |s| => ToNewVehicle(s[i]))
  }

  /** `records.filter(r => !known.has(key(r))).map(ToNewVehicle)`. */
  function Unseen(s: seq<ImportRecord>, known: seq<string>): (vs: seq<NewVehicle>)
    ensures |vs| <= |s|
    ensures forall i :: 0 <= i < |vs| ==> VehicleKey(vs[i]) !in known
  {
    if s == [] then []
    else
      var r := s[|s| - 1];
      assert VehicleKey(ToNewVehicle(r)) == ModelKeyOf(r);
      Unseen(s[..|s| - 1], known) + (if ModelKeyOf(r) !in known then [ToNewVehicle(r)] else [])
  }

  /** getNewVehicles(data, currentYear, currentMonth): the reference-month records
      whose `brand-model` key never occurs in the previous year. */
  function NewVehicles(s: seq<ImportRecord>, year: int, month: int): (r: seq<NewVehicle>)
    ensures |r| <= |Select(s, Month(year, month))|
    ensures forall i :: 0 <= i < |r| ==> VehicleKey(r[i]) !in Project(Select(s, Year(year - 1)), ModelKeyOf)
  {
    var currentMonthData := Select(s, Month(year, month));
    var previousYearModels := Project(Select(s, Year(year - 1)), ModelKeyOf);
    Unseen(currentMonthData, previousYearModels)
  }

  lemma UnseenFacts(s: seq<ImportRecord>, known: seq<string>)
    ensures var r := Unseen(s, known);
      && IsSubsequence(r, Vehicles(s))
      && (forall i :: 0 <= i < |r| ==> VehicleKey(r[i]) !in known)
      && (forall v :: VehicleKey(v) !in known ==> multiset(r)[v] == multiset(Vehicles(s))[v])
  {
    UnseenSubsequence(s, known);
    forall v | VehicleKey(v) !in known ensures multiset(Unseen(s, known))[v] == multiset(Vehicles(s))[v] {
      UnseenCount(s, known, v);
    }
  }

  /** The vehicles of s are those of its prefix followed by its last record's. */
  lemma VehiclesSnoc(s: seq<ImportRecord>)
    requires s != []
    ensures Vehicles(s) == Vehicles(s[..|s| - 1]) + [ToNewVehicle(s[|s| - 1])]
  {
  }

  lemma {:induction false} UnseenSubsequence(s: seq<ImportRecord>, known: seq<string>)
    ensures IsSubsequence(Unseen(s, known), Vehicles(s))
  {
    if s == [] {
      assert Vehicles(s) == [];
    } else {
      var p := s[..|s| - 1];
      var x := s[|s| - 1];
      var u := Unseen(p, known);
      UnseenSubsequence(p, known);
      VehiclesSnoc(s);
      if ModelKeyOf(x) !in known {
        SubsequenceSnoc(u, Vehicles(p), ToNewVehicle(x));
      } else {
        assert Unseen(s, known) == u;
        SubsequenceExtend(u, Vehicles(p), ToNewVehicle(x));
      }
    }
  }

  lemma {:induction false} UnseenCount(s: seq<ImportRecord>, known: seq<string>, v: NewVehicle)
    requires VehicleKey(v) !in known
    ensures multiset(Unseen(s, known))[v] == multiset(Vehicles(s))[v]
  {
    if s == [] {
      assert Vehicles(s) == [];
    } else {
      var p := s[..|s| - 1];
      var x := s[|s| - 1];
      UnseenCount(p, known, v);
      VehiclesSnoc(s);
      assert VehicleKey(ToNewVehicle(x)) == ModelKeyOf(x);
    }
  }

  /** getNewVehicles: an order-preserving subsequence of the reference month's
      records; no returned key occurs in the previous year; and every reference-month
      record whose key is absent from the previous year is returned, duplicates
      included. */
  lemma NewVehiclesFacts(s: seq<ImportRecord>, year: int, month: int)
    ensures var r, cm, py := NewVehicles(s, year, month), Select(s, Month(year, month)), Select(s, Year(year - 1));
      && IsSubsequence(r, Vehicles(cm))
      && (forall i :: 0 <= i < |r| ==> forall p :: p in py ==> ModelKeyOf(p) != VehicleKey(r[i]))
      && (forall v :: (forall p :: p in py ==> ModelKeyOf(p) != VehicleKey(v)) ==>
            multiset(r)[v] == multiset(Vehicles(cm))[v])
      && (forall x :: x in cm && (forall p :: p in py ==> ModelKeyOf(p) != ModelKeyOf(x)) ==> ToNewVehicle(x) in r)
  {
    var cm, py := Select(s, Month(year, month)), Select(s, Year(year - 1));
    UnseenSubsequence(cm, Project(py, ModelKeyOf));
    UnseenAgainstKeys(cm, py);
    UnseenAgainstCounts(cm, py);
    UnseenAgainstComplete(cm, py);
  }

  /** The three parts of NewVehiclesFacts, for any current records cm and earlier
      records py. */
  lemma UnseenAgainstKeys(cm: seq<ImportRecord>, py: seq<ImportRecord>)
    ensures var r := Unseen(cm, Project(py, ModelKeyOf));
      forall i :: 0 <= i < |r| ==> forall p :: p in py ==> ModelKeyOf(p) != VehicleKey(r[i])
  {
    var known := Project(py, ModelKeyOf);
    var r := Unseen(cm, known);
    forall i, p | 0 <= i < |r| && p in py ensures ModelKeyOf(p) != VehicleKey(r[i]) {
      var j :| 0 <= j < |py| && py[j] == p;
      assert known[j] == ModelKeyOf(p);
    }
  }

  lemma UnseenAgainstCounts(cm: seq<ImportRecord>, py: seq<ImportRecord>)
    ensures var r := Unseen(cm, Project(py, ModelKeyOf));
      forall v :: (forall p :: p in py ==> ModelKeyOf(p) != VehicleKey(v)) ==>
        multiset(r)[v] == multiset(Vehicles(cm))[v]
  {
    var known := Project(py, ModelKeyOf);
    UnseenFacts(cm, known);
    forall v | (forall p :: p in py ==> ModelKeyOf(p) != VehicleKey(v))
      ensures multiset(Unseen(cm, known))[v] == multiset(Vehicles(cm))[v]
    {
      assert VehicleKey(v) !in known;
    }
  }

  lemma UnseenAgainstComplete(cm: seq<ImportRecord>, py: seq<ImportRecord>)
    ensures forall x :: x in cm && (forall p :: p in py ==> ModelKeyOf(p) != ModelKeyOf(x)) ==>
      ToNewVehicle(x) in Unseen(cm, Project(py, ModelKeyOf))
  {
    var known := Project(py, ModelKeyOf);
    forall x | x in cm && (forall p :: p in py ==> ModelKeyOf(p) != ModelKeyOf(x))
      ensures ToNewVehicle(x) in Unseen(cm, known)
    {
      assert ModelKeyOf(x) !in known;
      UnseenComplete(cm, known, x);
    }
  }

  /** Every record whose key is unknown yields a returned vehicle. */
  lemma UnseenComplete(s: seq<ImportRecord>, known: seq<string>, x: ImportRecord)
    requires x in s && ModelKeyOf(x) !in known
    ensures ToNewVehicle(x) in Unseen(s, known)
  {
    var v := ToNewVehicle(x);
    assert VehicleKey(v) == ModelKeyOf(x);
    var j :| 0 <= j < |s| && s[j] == x;
    assert Vehicles(s)[j] == v;
    assert v in multiset(Vehicles(s));
    UnseenCount(s, known, v);
    assert v in multiset(Unseen(s, known));
  }

  // ------------------------------------------------------------------------
  // getBrandGrowth
  // ------------------------------------------------------------------------

  /** `Object.keys(currentTotals).map(brand => ({ name: brand, value: current,
      growth }))` with growth the percent change over the previous month's total. */
  function GrowthEntries(current: seq<(string, nat)>, previous: seq<(string, nat)>): (items: seq<RankingItem>)
    ensures |items| == |current|
    ensures forall i :: 0 <= i < |current| ==>
      items[i] == RankingItem(current[i].0, current[i].1, None,
                              Some(PercentChange(current[i].1, Get(previous, current[i].0, 0))))
  {
    if current == [] then []
    else
      var (brand, units) := current[0];
      [RankingItem(brand, units, None, Some(PercentChange(units, Get(previous, brand, 0))))]
      + GrowthEntries(current[1..], previous)
  }

  /** getBrandGrowth(data, currentYear, currentMonth). */
  function BrandGrowth(s: seq<ImportRecord>, year: int, month: int): (r: seq<RankingItem>)
    ensures SortedDesc(r, ByGrowth)
    ensures |r| == |Dedup(Project(Select(s, Month(year, month)), BrandOf))|
  {
    var currentTotals := GroupBy(Select(s, Month(year, month)), BrandOf, 0, AddUnits);
    var previousTotals := GroupBy(Select(s, MonthBefore(year, month)), BrandOf, 0, AddUnits);
    GroupByKeys(Select(s, Month(year, month)), BrandOf, 0, AddUnits);
    SortDesc(GrowthEntries(currentTotals, previousTotals), ByGrowth)
  }

  /** getBrandGrowth: exactly the brands of the reference month, once each (a brand
      seen only in the previous month is absent), sorted by non-increasing growth. */
  lemma BrandGrowthNames(s: seq<ImportRecord>, year: int, month: int)
    ensures var r, cm := BrandGrowth(s, year, month), Select(s, Month(year, month));
      && SortedDesc(r, ByGrowth)
      && Distinct(Names(r))
      && |r| == |Dedup(Project(cm, BrandOf))|
      && (forall b :: b in Names(r) <==> b in Project(cm, BrandOf))
  {
    var cm := Select(s, Month(year, month));
    var pm := Select(s, MonthBefore(year, month));
    var current := GroupBy(cm, BrandOf, 0, AddUnits);
    var previous := GroupBy(pm, BrandOf, 0, AddUnits);
    GroupByKeys(cm, BrandOf, 0, AddUnits);
    var items := GrowthEntries(current, previous);
    assert Names(items) == Keys(current);
    SortedByNameFacts(items, ByGrowth, NameOf);
  }

  /** getBrandGrowth: each brand carries its reference-month units and the percent
      change over its previous-month units, 0 when it sold nothing that month. */
  lemma BrandGrowthItem(s: seq<ImportRecord>, year: int, month: int, i: nat)
    requires i < |BrandGrowth(s, year, month)|
    ensures var r, cm, pm := BrandGrowth(s, year, month), Select(s, Month(year, month)), Select(s, MonthBefore(year, month));
      && r[i].value == Total(Where(cm, BrandOf, r[i].name))
      && r[i].growth == Some(PercentChange(r[i].value, Total(Where(pm, BrandOf, r[i].name))))
      && r[i].percentage == None
  {
    var cm := Select(s, Month(year, month));
    var pm := Select(s, MonthBefore(year, month));
    var current := GroupBy(cm, BrandOf, 0, AddUnits);
    var previous := GroupBy(pm, BrandOf, 0, AddUnits);
    GroupByKeys(cm, BrandOf, 0, AddUnits);
    var items := GrowthEntries(current, previous);
    var r := BrandGrowth(s, year, month);
    SortDescElements(items, ByGrowth);
    assert r[i] in r;
    var p :| 0 <= p < |items| && items[p] == r[i];
    GetEntry(current, p, 0);
    GroupByGet(cm, BrandOf, 0, AddUnits, r[i].name);
    GroupByGet(pm, BrandOf, 0, AddUnits, r[i].name);
  }

  // ------------------------------------------------------------------------
  // generateInsights
  // ------------------------------------------------------------------------

  /** One generated sentence, as the values it interpolates. */
  datatype Insight =
    | MarketLeader(brand: string, units: nat)
    | GrowthLeader(brand: string, growth: real)
    | DominantType(vehicleType: string, units: nat)
    | NewModels(count: nat)

  /** The place of each kind of insight in the output. */
  function Position(i: Insight): nat {
    match i
    case MarketLeader(_, _) => 0
    case GrowthLeader(_, _) => 1
    case DominantType(_, _) => 2
    case NewModels(_) => 3
  }

  /** `items.find(b => (b.growth || 0) > 0)`. */
  function FirstGrowing(items: seq<RankingItem>): (g: Option<RankingItem>)
    ensures g.None? <==> forall i :: 0 <= i < |items| ==> ByGrowth(items[i]) <= 0.0
    ensures g.Some? ==> exists i :: 0 <= i < |items| && items[i] == g.value && ByGrowth(g.value) > 0.0
                                    && forall j :: 0 <= j < i ==> ByGrowth(items[j]) <= 0.0
  {
    if items == [] then None
    else if ByGrowth(items[0]) > 0.0 then Some(items[0])
    else
      var g := FirstGrowing(items[1..]);
      if g.Some? then
        ghost var i :| 0 <= i < |items[1..]| && items[1..][i] == g.value && ByGrowth(g.value) > 0.0
                       && forall j :: 0 <= j < i ==> ByGrowth(items[1..][j]) <= 0.0;
        assert items[i + 1] == g.value;
        g
      else g
  }

  /** Every insight of p has position k, and there is at most one. */
  predicate Slot(p: seq<Insight>, k: nat) {
    |p| <= 1 && forall x :: x in p ==> Position(x) == k
  }

  function LeaderInsight(ranking: seq<RankingItem>): (p: seq<Insight>)
    ensures Slot(p, 0)
  {
    if |ranking| > 0 then [MarketLeader(ranking[0].name, ranking[0].value)] else []
  }

  /** The growth insight for the result of FirstGrowing: emitted when the found
      brand's growth is set and non-zero (`growthLeader && growthLeader.growth`). */
  function GrowthInsight(g: Option<RankingItem>): (p: seq<Insight>)
    ensures Slot(p, 1)
  {
    match g
    case Some(item) =>
      (match item.growth
       case Some(x) => if x != 0.0 then [GrowthLeader(item.name, x)] else []
       case None => [])
    case None => []
  }

  function TypeInsight(ranking: seq<RankingItem>): (p: seq<Insight>)
    ensures Slot(p, 2)
  {
    if |ranking| > 0 then [DominantType(ranking[0].name, ranking[0].value)] else []
  }

  function NewModelsInsight(vehicles: seq<NewVehicle>): (p: seq<Insight>)
    ensures Slot(p, 3)
  {
    if |vehicles| > 0 then [NewModels(|vehicles|)] else []
  }

  /** generateInsights(data, currentYear, currentMonth): at most four insights, in the
      fixed order leader, growth, vehicle type, new models. */
  function GenerateInsights(s: seq<ImportRecord>, year: int, month: int): (r: seq<Insight>)
    ensures |r| <= 4
    ensures forall i, j :: 0 <= i < j < |r| ==> Position(r[i]) < Position(r[j])
  {
    var a := LeaderInsight(BrandRanking(s, 3));
    var b := GrowthInsight(FirstGrowing(BrandGrowth(s, year, month)));
    var c := TypeInsight(VehicleTypeRanking(s));
    var d := NewModelsInsight(NewVehicles(s, year, month));
    SlotsInOrder(a, b, c, d);
    a + b + c + d
  }

  /** Which of four consecutive parts of lengths la, lb, lc and the rest index i falls in. */
  function PartOf(la: nat, lb: nat, lc: nat, i: nat): nat {
    if i < la then 0 else if i < la + lb then 1 else if i < la + lb + lc then 2 else 3
  }

  lemma SlotAt(a: seq<Insight>, b: seq<Insight>, c: seq<Insight>, d: seq<Insight>, i: nat)
    requires Slot(a, 0) && Slot(b, 1) && Slot(c, 2) && Slot(d, 3)
    requires i < |a + b + c + d|
    ensures Position((a + b + c + d)[i]) == PartOf(|a|, |b|, |c|, i)
  {
    var r := a + b + c + d;
    if i < |a| {
      assert r[i] == a[i];
    } else if i < |a| + |b| {
      assert r[i] == b[i - |a|];
    } else if i < |a| + |b| + |c| {
      assert r[i] == c[i - |a| - |b|];
    } else {
      assert r[i] == d[i - |a| - |b| - |c|];
    }
  }

  lemma SlotsInOrder(a: seq<Insight>, b: seq<Insight>, c: seq<Insight>, d: seq<Insight>)
    requires Slot(a, 0) && Slot(b, 1) && Slot(c, 2) && Slot(d, 3)
    ensures var r := a + b + c + d;
      |r| <= 4 && forall i, j :: 0 <= i < j < |r| ==> Position(r[i]) < Position(r[j])
  {
    var r := a + b + c + d;
    forall i, j | 0 <= i < j < |r| ensures Position(r[i]) < Position(r[j]) {
      SlotAt(a, b, c, d, i);
      SlotAt(a, b, c, d, j);
    }
  }

  /** The insights of r of the kind whose position is k. */
  function OfKind(r: seq<Insight>, k: nat): (q: seq<Insight>)
    ensures forall x :: x in q <==> x in r && Position(x) == k
  {
    if r == [] then []
    else (if Position(r[0]) == k then [r[0]] else []) + OfKind(r[1..], k)
  }

  lemma {:induction false} OfKindAppend(a: seq<Insight>, b: seq<Insight>, k: nat)
    ensures OfKind(a + b, k) == OfKind(a, k) + OfKind(b, k)
  {
    if a != [] {
      var ab := a + b;
      assert ab[0] == a[0];
      assert ab[1..] == a[1..] + b;
      OfKindAppend(a[1..], b, k);
      assert OfKind(ab, k) == (if Position(a[0]) == k then [a[0]] else []) + OfKind(a[1..] + b, k);
    } else {
      assert a + b == b;
    }
  }

  lemma OfKindSlot(p: seq<Insight>, j: nat, k: nat)
    requires Slot(p, j)
    ensures OfKind(p, k) == if j == k then p else []
  {
    if p != [] {
      assert p[1..] == [];
    }
  }

  /** Concatenated slots split back into their kinds. */
  lemma KindsOfParts(a: seq<Insight>, b: seq<Insight>, c: seq<Insight>, d: seq<Insight>)
    requires Slot(a, 0) && Slot(b, 1) && Slot(c, 2) && Slot(d, 3)
    ensures var r := a + b + c + d;
      OfKind(r, 0) == a && OfKind(r, 1) == b && OfKind(r, 2) == c && OfKind(r, 3) == d
  {
    KindOfParts(a, b, c, d, 0);
    KindOfParts(a, b, c, d, 1);
    KindOfParts(a, b, c, d, 2);
    KindOfParts(a, b, c, d, 3);
  }

  lemma KindOfParts(a: seq<Insight>, b: seq<Insight>, c: seq<Insight>, d: seq<Insight>, k: nat)
    requires Slot(a, 0) && Slot(b, 1) && Slot(c, 2) && Slot(d, 3)
    ensures OfKind(a + b + c + d, k)
         == (if k == 0 then a else []) + (if k == 1 then b else []) + (if k == 2 then c else []) + (if k == 3 then d else [])
  {
    OfKindAppend(a + b + c, d, k);
    OfKindAppend(a + b, c, k);
    OfKindAppend(a, b, k);
    OfKindSlot(a, 0, k);
    OfKindSlot(b, 1, k);
    OfKindSlot(c, 2, k);
    OfKindSlot(d, 3, k);
  }

  /** Each kind of insight comes from its own step of generateInsights. */
  lemma InsightKinds(s: seq<ImportRecord>, year: int, month: int)
    ensures var r := GenerateInsights(s, year, month);
      && OfKind(r, 0) == LeaderInsight(BrandRanking(s, 3))
      && OfKind(r, 1) == GrowthInsight(FirstGrowing(BrandGrowth(s, year, month)))
      && OfKind(r, 2) == TypeInsight(VehicleTypeRanking(s))
      && OfKind(r, 3) == NewModelsInsight(NewVehicles(s, year, month))
  {
    KindsOfParts(LeaderInsight(BrandRanking(s, 3)), GrowthInsight(FirstGrowing(BrandGrowth(s, year, month))),
                 TypeInsight(VehicleTypeRanking(s)), NewModelsInsight(NewVehicles(s, year, month)));
  }

  /** The units of the records whose key is k. */
  function UnitsOf(s: seq<ImportRecord>, key: ImportRecord -> string, k: string): nat {
    Total(Where(s, key, k))
  }

  /** The head of a unit ranking names a key of the data with the largest unit total. */
  lemma RankingHead(s: seq<ImportRecord>, key: ImportRecord -> string)
    ensures var r := UnitRanking(s, key);
      && (r != [] <==> s != [])
      && (r != [] ==>
            && r[0].name in Project(s, key)
            && r[0].value == UnitsOf(s, key, r[0].name)
            && forall k :: k in Project(s, key) ==> UnitsOf(s, key, k) <= r[0].value)
  {
    var r := UnitRanking(s, key);
    UnitRankingFacts(s, key);
    if s != [] {
      assert key(s[0]) in Project(s, key);
      assert key(s[0]) in Names(r);
    }
    if r != [] {
      assert Names(r)[0] == r[0].name;
      forall k | k in Project(s, key) ensures UnitsOf(s, key, k) <= r[0].value {
        assert k in Names(r);
        var j :| 0 <= j < |r| && Names(r)[j] == k;
        if j > 0 {
          assert ByValue(r[0]) >= ByValue(r[j]);
        }
      }
    }
  }

  /** The market-leader insight is present exactly when there is data, and names a
      brand with the most units together with those units. */
  lemma LeaderInsightFacts(s: seq<ImportRecord>, year: int, month: int)
    ensures var l := OfKind(GenerateInsights(s, year, month), 0);
      && (l != [] <==> s != [])
      && (l != [] ==>
            && l[0].MarketLeader?
            && l[0].brand in Project(s, BrandOf)
            && l[0].units == UnitsOf(s, BrandOf, l[0].brand)
            && forall b :: b in Project(s, BrandOf) ==> UnitsOf(s, BrandOf, b) <= l[0].units)
  {
    InsightKinds(s, year, month);
    RankingHead(s, BrandOf);
    UnitRankingFacts(s, BrandOf);
  }

  /** The vehicle-type insight is present exactly when there is data, and names a
      type with the most units together with those units. */
  lemma TypeInsightFacts(s: seq<ImportRecord>, year: int, month: int)
    ensures var l := OfKind(GenerateInsights(s, year, month), 2);
      && (l != [] <==> s != [])
      && (l != [] ==>
            && l[0].DominantType?
            && l[0].vehicleType in Project(s, TypeOf)
            && l[0].units == UnitsOf(s, TypeOf, l[0].vehicleType)
            && forall t :: t in Project(s, TypeOf) ==> UnitsOf(s, TypeOf, t) <= l[0].units)
  {
    InsightKinds(s, year, month);
    RankingHead(s, TypeOf);
  }

  /** The month-over-month growth of brand b in the reference month. */
  function BrandChange(s: seq<ImportRecord>, year: int, month: int, b: string): real {
    PercentChange(UnitsOf(Select(s, Month(year, month)), BrandOf, b),
                  UnitsOf(Select(s, MonthBefore(year, month)), BrandOf, b))
  }

  /** On a list sorted by growth, the growth insight is emitted exactly when the
      head has positive growth, and then names the head. */
  lemma GrowthInsightOfSorted(items: seq<RankingItem>)
    requires SortedDesc(items, ByGrowth)
    ensures var l := GrowthInsight(FirstGrowing(items));
      && (l != [] <==> items != [] && ByGrowth(items[0]) > 0.0)
      && (l != [] ==> l == [GrowthLeader(items[0].name, ByGrowth(items[0]))])
  {
    var g := FirstGrowing(items);
    if g.Some? {
      var i :| 0 <= i < |items| && items[i] == g.value && ByGrowth(g.value) > 0.0
               && forall j :: 0 <= j < i ==> ByGrowth(items[j]) <= 0.0;
      assert ByGrowth(items[0]) >= ByGrowth(items[i]);
    }
  }

  /** Every brand of the reference month has an item in the growth ranking, whose
      sort key is the brand's growth. */
  lemma GrowthItemOf(s: seq<ImportRecord>, year: int, month: int, b: string)
    requires b in Project(Select(s, Month(year, month)), BrandOf)
    ensures var g := BrandGrowth(s, year, month);
      exists j :: 0 <= j < |g| && g[j].name == b && ByGrowth(g[j]) == BrandChange(s, year, month, b)
  {
    var g := BrandGrowth(s, year, month);
    BrandGrowthNames(s, year, month);
    assert b in Names(g);
    var j :| 0 <= j < |g| && Names(g)[j] == b;
    BrandGrowthItem(s, year, month, j);
  }

  /** The head of the growth ranking is a brand of the reference month with the
      highest growth. */
  lemma GrowthHead(s: seq<ImportRecord>, year: int, month: int)
    ensures var g, cm := BrandGrowth(s, year, month), Select(s, Month(year, month));
      g != [] ==>
        && g[0].name in Project(cm, BrandOf)
        && g[0].growth == Some(BrandChange(s, year, month, g[0].name))
        && forall b :: b in Project(cm, BrandOf) ==> BrandChange(s, year, month, b) <= ByGrowth(g[0])
  {
    var g := BrandGrowth(s, year, month);
    var cm := Select(s, Month(year, month));
    if g != [] {
      BrandGrowthNames(s, year, month);
      BrandGrowthItem(s, year, month, 0);
      assert Names(g)[0] == g[0].name;
      forall b | b in Project(cm, BrandOf) ensures BrandChange(s, year, month, b) <= ByGrowth(g[0]) {
        GrowthItemOf(s, year, month, b);
        var j :| 0 <= j < |g| && g[j].name == b && ByGrowth(g[j]) == BrandChange(s, year, month, b);
        assert ByGrowth(g[0]) >= ByGrowth(g[j]);
      }
    }
  }

  /** The growth insight is present exactly when some brand of the reference month
      grew, and then names a brand of that month with the highest growth. */
  lemma GrowthInsightFacts(s: seq<ImportRecord>, year: int, month: int)
    ensures var l, cm := OfKind(GenerateInsights(s, year, month), 1), Select(s, Month(year, month));
      && (l != [] <==> exists b :: b in Project(cm, BrandOf) && BrandChange(s, year, month, b) > 0.0)
      && (l != [] ==>
            && l[0].GrowthLeader?
            && l[0].brand in Project(cm, BrandOf)
            && l[0].growth == BrandChange(s, year, month, l[0].brand)
            && forall b :: b in Project(cm, BrandOf) ==> BrandChange(s, year, month, b) <= l[0].growth)
  {
    InsightKinds(s, year, month);
    GrowthLeaderFacts(s, year, month);
  }

  /** The growth insight computed from getBrandGrowth, as the insight list holds it. */
  lemma GrowthLeaderFacts(s: seq<ImportRecord>, year: int, month: int)
    ensures var l, cm := GrowthInsight(FirstGrowing(BrandGrowth(s, year, month))), Select(s, Month(year, month));
      && (l != [] <==> exists b :: b in Project(cm, BrandOf) && BrandChange(s, year, month, b) > 0.0)
      && (l != [] ==>
            && l[0].GrowthLeader?
            && l[0].brand in Project(cm, BrandOf)
            && l[0].growth == BrandChange(s, year, month, l[0].brand)
            && forall b :: b in Project(cm, BrandOf) ==> BrandChange(s, year, month, b) <= l[0].growth)
  {
    var g := BrandGrowth(s, year, month);
    GrowthInsightOfSorted(g);
    GrowthHead(s, year, month);
    if exists b :: b in Project(Select(s, Month(year, month)), BrandOf) && BrandChange(s, year, month, b) > 0.0 {
      var b :| b in Project(Select(s, Month(year, month)), BrandOf) && BrandChange(s, year, month, b) > 0.0;
      GrowthItemOf(s, year, month, b);
    }
  }

  /** getNewVehicles finds something exactly when some record of the reference month
      has a `brand-model` key unseen in the previous year. */
  lemma NewVehiclesNonEmpty(s: seq<ImportRecord>, year: int, month: int)
    ensures var cm, py := Select(s, Month(year, month)), Select(s, Year(year - 1));
      NewVehicles(s, year, month) != [] <==> exists x :: x in cm && forall p :: p in py ==> ModelKeyOf(p) != ModelKeyOf(x)
  {
    var nv := NewVehicles(s, year, month);
    var cm := Select(s, Month(year, month));
    NewVehiclesFacts(s, year, month);
    if nv != [] {
      var v := nv[0];
      assert v in multiset(nv);
      assert v in multiset(Vehicles(cm));
      assert v in Vehicles(cm);
      var j :| 0 <= j < |cm| && Vehicles(cm)[j] == v;
      assert cm[j] in cm;
      assert ModelKeyOf(cm[j]) == VehicleKey(v);
    }
  }

  /** The new-models insight is present exactly when some record of the reference
      month has a `brand-model` key unseen in the previous year, and reports how
      many records getNewVehicles returns. */
  lemma NewModelsInsightFacts(s: seq<ImportRecord>, year: int, month: int)
    ensures var l, cm, py := OfKind(GenerateInsights(s, year, month), 3), Select(s, Month(year, month)), Select(s, Year(year - 1));
      && (l != [] <==> exists x :: x in cm && forall p :: p in py ==> ModelKeyOf(p) != ModelKeyOf(x))
      && (l != [] ==> l == [NewModels(|NewVehicles(s, year, month)|)])
  {
    InsightKinds(s, year, month);
    NewVehiclesNonEmpty(s, year, month);
  }

  /** The new-models count is a record count: two reference-month records of the
      same new model count twice. */
  lemma NewModelsCountsRecords()
    ensures var a := ImportRecord("1", "", "Tesla", "Model Y", "SUV", 3, 2024, 5);
            var b := ImportRecord("2", "", "Tesla", "Model Y", "SUV", 4, 2024, 5);
      && ModelKeyOf(a) == ModelKeyOf(b)
      && NewModelsInsight(NewVehicles([a, b], 2024, 5)) == [NewModels(2)]
  {
    var a := ImportRecord("1", "", "Tesla", "Model Y", "SUV", 3, 2024, 5);
    var b := ImportRecord("2", "", "Tesla", "Model Y", "SUV", 4, 2024, 5);
    TwoNewRecords(a, b);
  }

  /** Two records of one month with nothing in the year before are both new. */
  lemma TwoNewRecords(a: ImportRecord, b: ImportRecord)
    requires a.year == b.year && a.month == b.month
    ensures |NewVehicles([a, b], a.year, a.month)| == 2
  {
    SelectPair(a, b, Month(a.year, a.month));
    SelectPair(a, b, Year(a.year - 1));
    assert Project([], ModelKeyOf) == [];
    assert Unseen([a], []) == [ToNewVehicle(a)];
  }

  /** No data, no insights; any data yields at least the leader and type insights. */
  lemma InsightsEmpty(s: seq<ImportRecord>, year: int, month: int)
    ensures var r := GenerateInsights(s, year, month);
      && (r == [] <==> s == [])
      && (s != [] ==> 2 <= |r|)
  {
    var r := GenerateInsights(s, year, month);
    InsightKinds(s, year, month);
    LeaderInsightFacts(s, year, month);
    TypeInsightFacts(s, year, month);
    GrowthInsightFacts(s, year, month);
    NewModelsInsightFacts(s, year, month);
    if s == [] {
      assert Select(s, Month(year, month)) == [];
    }
  }

  // ------------------------------------------------------------------------
  // Worked examples
  // ------------------------------------------------------------------------

  /** 100 units in October against 80 in September is a growth of 25 percent. */
  lemma GrowthExample()
    ensures var oct := ImportRecord("1", "", "Toyota", "Hilux", "Pickup", 100, 2024, 10);
            var sep := ImportRecord("2", "", "Toyota", "Hilux", "Pickup", 80, 2024, 9);
      BrandGrowth([oct, sep], 2024, 10) == [RankingItem("Toyota", 100, None, Some(25.0))]
  {
    var oct := ImportRecord("1", "", "Toyota", "Hilux", "Pickup", 100, 2024, 10);
    var sep := ImportRecord("2", "", "Toyota", "Hilux", "Pickup", 80, 2024, 9);
    SelectPair(oct, sep, Month(2024, 10));
    SelectPair(oct, sep, MonthBefore(2024, 10));
    assert GroupBy([oct], BrandOf, 0, AddUnits) == [("Toyota", 100)];
    assert GroupBy([sep], BrandOf, 0, AddUnits) == [("Toyota", 80)] by {
      assert [sep][..0] == [];
    }
    assert PercentChange(100, 80) == 25.0;
  }

  /** Brands with 60 and 40 of 100 units hold 60 and 40 percent of the market. */
  lemma MarketShareExample()
    ensures var a := ImportRecord("1", "", "A", "X", "SUV", 60, 2024, 10);
            var b := ImportRecord("2", "", "B", "Y", "SUV", 40, 2024, 10);
      MarketShare([a, b]) == [MarketShareData("A", 60, 60.0), MarketShareData("B", 40, 40.0)]
  {
    var a := ImportRecord("1", "", "A", "X", "SUV", 60, 2024, 10);
    var b := ImportRecord("2", "", "B", "Y", "SUV", 40, 2024, 10);
    var s := [a, b];
    assert s[..1] == [a];
    assert [a][..0] == [];
    assert Fold([a], 0, AddUnits) == 60;
    assert Total(s) == 100;
    var t := GroupBy(s, BrandOf, 0, AddUnits);
    assert GroupBy([a], BrandOf, 0, AddUnits) == [("A", 60)];
    assert Get([("A", 60)], "B", 0) == 0;
    assert Put([("A", 60)], "B", 40) == [("A", 60), ("B", 40)];
    assert t == [("A", 60), ("B", 40)];
    assert Percentage(60, 100) == 60.0;
    assert Percentage(40, 100) == 40.0;
    var items := ShareEntries(t, 100);
    assert items == [MarketShareData("A", 60, 60.0), MarketShareData("B", 40, 40.0)];
    assert SortDesc(items[1..], ShareValue) == [items[1]];
  }

  /** Two types with equal totals keep the order in which they first appear. */
  lemma TypeTieExample()
    ensures var suv := ImportRecord("1", "", "A", "X", "SUV", 300, 2024, 10);
            var sedan := ImportRecord("2", "", "B", "Y", "Sedan", 300, 2024, 10);
      VehicleTypeRanking([suv, sedan]) == [RankingItem("SUV", 300, None, None), RankingItem("Sedan", 300, None, None)]
  {
    var suv := ImportRecord("1", "", "A", "X", "SUV", 300, 2024, 10);
    var sedan := ImportRecord("2", "", "B", "Y", "Sedan", 300, 2024, 10);
    var s := [suv, sedan];
    assert s[..1] == [suv];
    assert [suv][..0] == [];
    var t := GroupBy(s, TypeOf, 0, AddUnits);
    assert GroupBy([suv], TypeOf, 0, AddUnits) == [("SUV", 300)];
    assert Get([("SUV", 300)], "Sedan", 0) == 0;
    assert Put([("SUV", 300)], "Sedan", 300) == [("SUV", 300), ("Sedan", 300)];
    assert t == [("SUV", 300), ("Sedan", 300)];
    var items := Entries(t, SumValue);
    assert items == [RankingItem("SUV", 300, None, None), RankingItem("Sedan", 300, None, None)];
    assert SortDesc(items[1..], ByValue) == [items[1]];
  }
}
