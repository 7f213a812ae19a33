/**
 * The report half of `process_csv`: three synthetic yearly counts per top tag,
 * the yearly totals, each tag's yearly percentage share, each tag's average share,
 * and the list of tag series sorted by that average.
 */
module ReportBuilder {
  import opened Aggregator
  import opened GrowthSynthesizer
  import opened StableSort

  /** `list(range(2023, 2026))`. */
  const Years: seq<int> := [2023, 2024, 2025]

  /** One entry of the report's `tags` list. */
  datatype TagSeries = TagSeries(name: string, data: seq<real>, average: real)

  /** The tags of the top list, as a set. */
  function NameSet(top: seq<TagCount>): set<string> {
    set i | 0 <= i < |top| :: top[i].0
  }

  /**
   * The synthetic count of top tag `i` in year `Years[k]`: the i-th call of
   * `generate_growth_pattern` takes the random draws 3i, 3i+1 and 3i+2.
   */
  function CountOf(top: seq<TagCount>, i: nat, k: nat, random: nat -> real, ln: nat -> real): int
    requires i < |top|
  {
    SyntheticCount(top[i].1, k, random(Periods * i + k), ln)
  }

  /** The three synthetic counts of top tag `i`, one per year. */
  function TagSeriesCounts(top: seq<TagCount>, i: nat, random: nat -> real, ln: nat -> real): seq<int>
    requires i < |top|
  {
    seq(|Years|, k requires 0 <= k < |Years| => CountOf(top, i, k, random, ln))
  }

  /** The synthetic counts of all top tags in year `Years[k]`, in top-list order. */
  function YearCounts(top: seq<TagCount>, k: nat, random: nat -> real, ln: nat -> real): seq<int> {
    seq(|top|, i requires 0 <= i < |top| => CountOf(top, i, k, random, ln))
  }

  function SumInts(s: seq<int>): int {
    if s == [] then 0 else SumInts(s[..|s| - 1]) + s[|s| - 1]
  }

  /** Python's `sum` over floats, adding from the left. */
  function SumReals(s: seq<real>): real {
    if s == [] then 0.0 else SumReals(s[..|s| - 1]) + s[|s| - 1]
  }

  /** `sum(s) / len(s)` before rounding. */
  function Mean(s: seq<real>): real
    requires |s| > 0
  {
    SumReals(s) / |s| as real
  }

  /** `(tag_count / total_questions) * 100 if total_questions > 0 else 0`, before rounding. */
  function Percentage(count: int, total: int): real {
    if total > 0 then count as real / total as real * 100.0 else 0.0
  }

  /** The sort key `lambda x: x['average']`. */
  function AverageKey(s: TagSeries): real {
    s.average
  }

  /** `yearly_data` has exactly one dict per year. */
  ghost predicate HasYears(d: map<int, map<string, int>>) {
    forall y :: y in d <==> y in Years
  }

  /** `d` holds `series[j][k]` for the j-th top tag in year `Years[k]`, for each of the first `n` tags. */
  ghost predicate Holds(d: map<int, map<string, int>>, top: seq<TagCount>, series: seq<seq<int>>, n: nat)
  {
    && n <= |top|
    && |series| == n
    && HasYears(d)
    && (forall j :: 0 <= j < n ==> |series[j]| == |Years|)
    && (forall j, k :: 0 <= j < n && 0 <= k < |Years| ==>
          top[j].0 in d[Years[k]] && d[Years[k]][top[j].0] == series[j][k])
  }

  /**
   * Fills `yearly_data[year][tag]` from one `generate_growth_pattern` call per top
   * tag, in top-list order.
   */
  method BuildYearlyData(top: seq<TagCount>, random: nat -> real, ln: nat -> real)
    returns (yearlyData: map<int, map<string, int>>)
    requires DistinctNames(top)
    ensures forall y :: y in yearlyData <==> y in Years
    ensures forall y :: y in yearlyData ==> yearlyData[y].Keys == NameSet(top)
    ensures forall i, k :: 0 <= i < |top| && 0 <= k < |Years| ==>
      top[i].0 in yearlyData[Years[k]] && yearlyData[Years[k]][top[i].0] == CountOf(top, i, k, random, ln)
  {
    yearlyData := map y | y in Years :: map[];
    ghost var series: seq<seq<int>> := [];
    assert top[..0] == [];
    for i := 0 to |top|
      invariant Holds(yearlyData, top, series, i)
      invariant KeysAre(yearlyData, top, i)
      invariant SeriesAre(series, top, i, random, ln)
    {
      var (tag, baseCount) := top[i];
      var offset: nat := Periods * i;
      var counts := GenerateGrowthPattern(baseCount, Years, random, offset, ln);
      SeriesStep(series, counts, top, i, offset, random, ln);
      ghost var before := yearlyData;
      yearlyData := RecordCounts(yearlyData, tag, counts);
      RecordedSeries(top, i, before, yearlyData, series, counts);
      KeysStep(top, i, before, yearlyData, counts);
      series := series + [counts];
    }
    YearlyDataComplete(yearlyData, top, series, random, ln);
  }

  /** Every year dict of `d` has exactly the first `n` top tags as keys. */
  ghost predicate KeysAre(d: map<int, map<string, int>>, top: seq<TagCount>, n: nat)
    requires n <= |top|
  {
    forall y :: y in d ==> d[y].Keys == NameSet(top[..n])
  }

  /** `series` holds the synthetic counts of the first `n` top tags. */
  ghost predicate SeriesAre(series: seq<seq<int>>, top: seq<TagCount>, n: nat, random: nat -> real, ln: nat -> real)
    requires n <= |top|
  {
    && |series| == n
    && forall j :: 0 <= j < n ==> series[j] == TagSeriesCounts(top, j, random, ln)
  }

  /** The counts of the `i`-th `generate_growth_pattern` call are top tag `i`'s synthetic counts. */
  lemma SeriesStep(series: seq<seq<int>>, counts: seq<int>, top: seq<TagCount>, i: nat, offset: nat,
                   random: nat -> real, ln: nat -> real)
    requires i < |top| && offset == Periods * i && SeriesAre(series, top, i, random, ln)
    requires |counts| == Periods
    requires forall k :: 0 <= k < Periods ==> counts[k] == SyntheticCount(top[i].1, k, random(offset + k), ln)
    ensures SeriesAre(series + [counts], top, i + 1, random, ln)
  {
    assert counts == TagSeriesCounts(top, i, random, ln);
  }

  /** Recording top tag `i` in every year dict adds it to the keys. */
  lemma KeysStep(top: seq<TagCount>, i: nat, before: map<int, map<string, int>>,
                 after: map<int, map<string, int>>, counts: seq<int>)
    requires i < |top| && |counts| == |Years|
    requires HasYears(before) && HasYears(after) && KeysAre(before, top, i)
    requires forall k :: 0 <= k < |Years| ==> after[Years[k]] == before[Years[k]][top[i].0 := counts[k]]
    ensures KeysAre(after, top, i + 1)
  {
    assert NameSet(top[..i + 1]) == NameSet(top[..i]) + {top[i].0};
    forall y | y in after ensures after[y].Keys == NameSet(top[..i + 1]) {
      var k :| 0 <= k < |Years| && Years[k] == y;
    }
  }

  /** After the last top tag, `yearly_data` holds every top tag's synthetic counts. */
  lemma YearlyDataComplete(d: map<int, map<string, int>>, top: seq<TagCount>, series: seq<seq<int>>,
                           random: nat -> real, ln: nat -> real)
    requires Holds(d, top, series, |top|) && KeysAre(d, top, |top|) && SeriesAre(series, top, |top|, random, ln)
    ensures forall y :: y in d <==> y in Years
    ensures forall y :: y in d ==> d[y].Keys == NameSet(top)
    ensures forall i, k :: 0 <= i < |top| && 0 <= k < |Years| ==>
      top[i].0 in d[Years[k]] && d[Years[k]][top[i].0] == CountOf(top, i, k, random, ln)
  {
    assert top[..|top|] == top;
    forall i, k | 0 <= i < |top| && 0 <= k < |Years|
      ensures top[i].0 in d[Years[k]] && d[Years[k]][top[i].0] == CountOf(top, i, k, random, ln)
    {
      assert series[i][k] == TagSeriesCounts(top, i, random, ln)[k];
    }
  }

  /** Recording the counts of top tag `i` keeps the counts recorded for the earlier tags. */
  lemma RecordedSeries(top: seq<TagCount>, i: nat, before: map<int, map<string, int>>,
                       after: map<int, map<string, int>>, series: seq<seq<int>>, counts: seq<int>)
    requires DistinctNames(top) && i < |top| && |counts| == |Years|
    requires Holds(before, top, series, i) && HasYears(after)
    requires forall k :: 0 <= k < |Years| ==> after[Years[k]] == before[Years[k]][top[i].0 := counts[k]]
    ensures Holds(after, top, series + [counts], i + 1)
  {
    forall j, k | 0 <= j < i + 1 && 0 <= k < |Years|
      ensures top[j].0 in after[Years[k]] && after[Years[k]][top[j].0] == (series + [counts])[j][k]
    {
      if j < i {
        assert top[j].0 != top[i].0;
      }
    }
  }

  /** `for year_index, year in enumerate(years): yearly_data[year][tag] = counts[year_index]`. */
  method RecordCounts(yearlyData: map<int, map<string, int>>, tag: string, counts: seq<int>)
    returns (yearlyData': map<int, map<string, int>>)
    requires HasYears(yearlyData)
    requires |counts| == |Years|
    ensures HasYears(yearlyData')
    ensures forall k :: 0 <= k < |Years| ==> yearlyData'[Years[k]] == yearlyData[Years[k]][tag := counts[k]]
  {
    yearlyData' := yearlyData;
    for yearIndex := 0 to |Years|
      invariant forall y :: y in yearlyData' <==> y in Years
      invariant forall k :: 0 <= k < yearIndex ==> yearlyData'[Years[k]] == yearlyData[Years[k]][tag := counts[k]]
      invariant forall k :: yearIndex <= k < |Years| ==> yearlyData'[Years[k]] == yearlyData[Years[k]]
    {
      var year := Years[yearIndex];
      yearlyData' := yearlyData'[year := yearlyData'[year][tag := counts[yearIndex]]];
    }
  }

  /** Every year dict of `d` has a count for every top tag. */
  ghost predicate CoversTop(d: map<int, map<string, int>>, top: seq<TagCount>) {
    && HasYears(d)
    && (forall y, i :: y in d && 0 <= i < |top| ==> top[i].0 in d[y])
  }

  /** The counts of the top tags in one year's dict, in top-list order. */
  function Column(top: seq<TagCount>, counts: map<string, int>): (c: seq<int>)
    requires forall i :: 0 <= i < |top| ==> top[i].0 in counts
    ensures |c| == |top|
  {
    seq(|top|, i requires 0 <= i < |top| => counts[top[i].0])
  }

  /** The percentage of each count of `c` in `total`. */
  function SharesOf(c: seq<int>, total: int): (shares: seq<real>)
    ensures |shares| == |c|
  {
    seq(|c|, i requires 0 <= i < |c| => Percentage(c[i], total))
  }

  /** The inner `total_questions += yearly_data[year][tag]` loop over the top tags. */
  method SumYear(top: seq<TagCount>, counts: map<string, int>) returns (total: int)
    requires forall i :: 0 <= i < |top| ==> top[i].0 in counts
    ensures total == SumInts(Column(top, counts))
  {
    total := 0;
    ghost var column := Column(top, counts);
    for i := 0 to |top|
      invariant total == SumInts(column[..i])
    {
      total := total + counts[top[i].0];
      assert column[..i + 1][..i] == column[..i];
    }
    assert column[..|top|] == column;
  }

  /** The inner loop that fills `yearly_percentages[year]`. */
  method YearShares(top: seq<TagCount>, counts: map<string, int>, total: int)
    returns (shares: map<string, real>)
    requires forall i :: 0 <= i < |top| ==> top[i].0 in counts
    ensures shares.Keys == NameSet(top)
    ensures forall t :: t in shares ==> t in counts && shares[t] == Percentage(counts[t], total)
  {
    shares := map[];
    for i := 0 to |top|
      invariant shares.Keys == NameSet(top[..i])
      invariant forall t :: t in shares ==> t in counts && shares[t] == Percentage(counts[t], total)
    {
      var tag := top[i].0;
      var tagCount := counts[tag];
      var percentage := Percentage(tagCount, total);
      shares := shares[tag := percentage];
      assert NameSet(top[..i + 1]) == NameSet(top[..i]) + {tag};
    }
    assert top[..|top|] == top;
  }

  /**
   * The `for year in years` loop: each year's total over the top tags, then each
   * top tag's percentage of that total.
   */
  method ComputeYearStats(top: seq<TagCount>, yearlyData: map<int, map<string, int>>)
    returns (totals: map<int, int>, percentages: map<int, map<string, real>>)
    requires CoversTop(yearlyData, top)
    ensures forall y :: y in totals <==> y in Years
    ensures forall y :: y in percentages <==> y in Years
    ensures forall y :: y in Years ==> totals[y] == SumInts(Column(top, yearlyData[y]))
    ensures forall y :: y in Years ==> percentages[y].Keys == NameSet(top)
    ensures forall y, t :: y in Years && t in percentages[y] ==>
      t in yearlyData[y] && percentages[y][t] == Percentage(yearlyData[y][t], totals[y])
  {
    totals := map[];
    percentages := map[];
    for k := 0 to |Years|
      invariant StatsSoFar(totals, percentages, top, yearlyData, k)
    {
      var year := Years[k];
      var total := SumYear(top, yearlyData[year]);
      ghost var (totals0, percentages0) := (totals, percentages);
      totals := totals[year := total];
      var shares := YearShares(top, yearlyData[year], total);
      percentages := percentages[year := shares];
      StatsStep(totals0, percentages0, top, yearlyData, k, total, shares);
    }
    StatsComplete(totals, percentages, top, yearlyData);
  }

  /** `totals` and `percentages` hold the statistics of the first `n` years. */
  ghost predicate StatsSoFar(totals: map<int, int>, percentages: map<int, map<string, real>>,
                             top: seq<TagCount>, yearlyData: map<int, map<string, int>>, n: nat)
    requires CoversTop(yearlyData, top)
    requires n <= |Years|
  {
    TotalsSoFar(totals, top, yearlyData, n) && SharesSoFar(percentages, totals, top, yearlyData, n)
  }

  /** `totals` holds the totals of the first `n` years. */
  ghost predicate TotalsSoFar(totals: map<int, int>, top: seq<TagCount>, yearlyData: map<int, map<string, int>>, n: nat)
    requires CoversTop(yearlyData, top)
    requires n <= |Years|
  {
    && (forall y :: y in totals <==> y in Years[..n])
    && (forall y :: y in totals ==> totals[y] == SumInts(Column(top, yearlyData[y])))
  }

  /** `percentages` holds the shares of the first `n` years in the totals of `totals`. */
  ghost predicate SharesSoFar(percentages: map<int, map<string, real>>, totals: map<int, int>,
                              top: seq<TagCount>, yearlyData: map<int, map<string, int>>, n: nat)
    requires CoversTop(yearlyData, top)
    requires n <= |Years|
  {
    && (forall y :: y in percentages <==> y in Years[..n])
    && (forall y :: y in percentages ==> percentages[y].Keys == NameSet(top))
    && (forall y, t :: y in percentages && t in percentages[y] ==>
          y in totals && t in yearlyData[y] && percentages[y][t] == Percentage(yearlyData[y][t], totals[y]))
  }

  lemma StatsStep(totals: map<int, int>, percentages: map<int, map<string, real>>,
                  top: seq<TagCount>, yearlyData: map<int, map<string, int>>, k: nat,
                  total: int, shares: map<string, real>)
    requires CoversTop(yearlyData, top)
    requires k < |Years|
    requires StatsSoFar(totals, percentages, top, yearlyData, k)
    requires total == SumInts(Column(top, yearlyData[Years[k]]))
    requires shares.Keys == NameSet(top)
    requires forall t :: t in shares ==> t in yearlyData[Years[k]] && shares[t] == Percentage(yearlyData[Years[k]][t], total)
    ensures StatsSoFar(totals[Years[k] := total], percentages[Years[k] := shares], top, yearlyData, k + 1)
  {
    assert Years[..k + 1] == Years[..k] + [Years[k]];
    assert Years[k] !in totals;
    TotalsStep(totals, top, yearlyData, k, total);
    SharesStep(percentages, totals, totals[Years[k] := total], top, yearlyData, k, shares);
  }

  lemma TotalsStep(totals: map<int, int>, top: seq<TagCount>, yearlyData: map<int, map<string, int>>, k: nat, total: int)
    requires CoversTop(yearlyData, top)
    requires k < |Years|
    requires TotalsSoFar(totals, top, yearlyData, k)
    requires total == SumInts(Column(top, yearlyData[Years[k]]))
    ensures TotalsSoFar(totals[Years[k] := total], top, yearlyData, k + 1)
  {
    assert Years[..k + 1] == Years[..k] + [Years[k]];
  }

  lemma SharesStep(percentages: map<int, map<string, real>>, totals: map<int, int>, totals1: map<int, int>,
                   top: seq<TagCount>, yearlyData: map<int, map<string, int>>, k: nat, shares: map<string, real>)
    requires CoversTop(yearlyData, top)
    requires k < |Years|
    requires SharesSoFar(percentages, totals, top, yearlyData, k)
    requires forall y :: y in totals ==> y in totals1 && totals1[y] == totals[y]
    requires Years[k] in totals1
    requires shares.Keys == NameSet(top)
    requires forall t :: t in shares ==> t in yearlyData[Years[k]] && shares[t] == Percentage(yearlyData[Years[k]][t], totals1[Years[k]])
    ensures SharesSoFar(percentages[Years[k] := shares], totals1, top, yearlyData, k + 1)
  {
    assert Years[..k + 1] == Years[..k] + [Years[k]];
  }

  lemma StatsComplete(totals: map<int, int>, percentages: map<int, map<string, real>>,
                      top: seq<TagCount>, yearlyData: map<int, map<string, int>>)
    requires CoversTop(yearlyData, top)
    requires StatsSoFar(totals, percentages, top, yearlyData, |Years|)
    ensures forall y :: y in totals <==> y in Years
    ensures forall y :: y in percentages <==> y in Years
    ensures forall y :: y in Years ==> totals[y] == SumInts(Column(top, yearlyData[y]))
    ensures forall y :: y in Years ==> percentages[y].Keys == NameSet(top)
    ensures forall y, t :: y in Years && t in percentages[y] ==>
      t in yearlyData[y] && percentages[y][t] == Percentage(yearlyData[y][t], totals[y])
  {
    assert Years[..|Years|] == Years;
  }

  /** Adding two shares of the same total adds their counts. */
  lemma AddShares(a: real, c: real, total: real)
    requires total > 0.0
    ensures a / total * 100.0 + c / total * 100.0 == (a + c) / total * 100.0
  {
  }

  /** The unrounded percentages of some counts add up to the counts' sum as a percentage of `total`. */
  lemma {:induction false} SharesSum(c: seq<int>, total: int)
    requires total > 0
    ensures SumReals(SharesOf(c, total)) == SumInts(c) as real / total as real * 100.0
  {
    if c != [] {
      var n := |c| - 1;
      SharesSum(c[..n], total);
      assert SharesOf(c, total)[..n] == SharesOf(c[..n], total);
      AddShares(SumInts(c[..n]) as real, c[n] as real, total as real);
    }
  }

  /** Whenever a year's total is positive, its unrounded percentages add up to exactly 100. */
  lemma SharesSumTo100(c: seq<int>)
    requires SumInts(c) > 0
    ensures SumReals(SharesOf(c, SumInts(c))) == 100.0
  {
    SharesSum(c, SumInts(c));
    var t := SumInts(c) as real;
    assert t / t == 1.0;
  }

  /** With non-negative counts, the sum is at least each count. */
  lemma {:induction false} SumAtLeast(c: seq<int>)
    requires forall i :: 0 <= i < |c| ==> c[i] >= 0
    ensures SumInts(c) >= 0
    ensures forall i :: 0 <= i < |c| ==> SumInts(c) >= c[i]
  {
    if c != [] {
      var n := |c| - 1;
      SumAtLeast(c[..n]);
      assert forall i :: 0 <= i < n ==> c[..n][i] == c[i];
    }
  }

  /** A count between 0 and a positive total is a percentage between 0 and 100. */
  lemma PercentageBounds(count: int, total: int)
    requires 0 <= count <= total
    ensures 0.0 <= Percentage(count, total) <= 100.0
  {
    if total > 0 {
      assert count as real / total as real <= 1.0;
    }
  }

  /** Every year of `p` has a percentage for tag `t`. */
  ghost predicate HasShare(p: map<int, map<string, real>>, t: string) {
    forall k :: 0 <= k < |Years| ==> Years[k] in p && t in p[Years[k]]
  }

  /** Every year of `p` has a percentage for every top tag. */
  ghost predicate SharesCover(p: map<int, map<string, real>>, top: seq<TagCount>) {
    forall i :: 0 <= i < |top| ==> HasShare(p, top[i].0)
  }

  /** `[yearly_percentages[year][tag] for year in years]`. */
  function TagData(t: string, p: map<int, map<string, real>>): (data: seq<real>)
    requires HasShare(p, t)
    ensures |data| == |Years|
  {
    seq(|Years|, k requires 0 <= k < |Years| => p[Years[k]][t])
  }

  /** The `tags_data` entry of tag `t`, its average being the mean of its yearly percentages. */
  function SeriesOf(t: string, p: map<int, map<string, real>>): TagSeries
    requires HasShare(p, t)
  {
    var data := TagData(t, p);
    TagSeries(t, data, Mean(data))
  }

  /** `tags_data` before the sort: one entry per top tag, in top-list order. */
  function SeriesList(top: seq<TagCount>, p: map<int, map<string, real>>): (series: seq<TagSeries>)
    requires SharesCover(p, top)
    ensures |series| == |top|
  {
    seq(|top|, i requires 0 <= i < |top| => SeriesOf(top[i].0, p))
  }

  /**
   * Computes `tag_totals` (each top tag's mean yearly percentage), appends one
   * `tags_data` entry per top tag, and sorts `tags_data` by average, descending.
   */
  method BuildTagsData(top: seq<TagCount>, p: map<int, map<string, real>>)
    returns (tagsData: seq<TagSeries>)
    requires SharesCover(p, top)
    ensures tagsData == SortDesc(SeriesList(top, p), AverageKey)
  {
    var tagTotals: map<string, real> := map[];
    for i := 0 to |top|
      invariant forall j :: 0 <= j < i ==> top[j].0 in tagTotals
      invariant forall t :: t in tagTotals ==> HasShare(p, t) && tagTotals[t] == Mean(TagData(t, p))
    {
      var tag := top[i].0;
      var totalPercentage := SumReals(TagData(tag, p));
      tagTotals := tagTotals[tag := totalPercentage / |Years| as real];
    }
    var series := [];
    for i := 0 to |top|
      invariant |series| == i
      invariant forall j :: 0 <= j < i ==> series[j] == SeriesOf(top[j].0, p)
    {
      var tag := top[i].0;
      var data := TagData(tag, p);
      series := series + [TagSeries(tag, data, tagTotals[tag])];
    }
    assert series == SeriesList(top, p);
    tagsData := SortDesc(series, AverageKey);
  }

  /** The unrounded percentages of the top tags in year `Years[k]`, in top-list order. */
  function YearPercentages(top: seq<TagCount>, k: nat, random: nat -> real, ln: nat -> real): (shares: seq<real>)
    ensures |shares| == |top|
  {
    var c := YearCounts(top, k, random, ln);
    SharesOf(c, SumInts(c))
  }

  /** The `data` list of top tag `i`: its unrounded percentage in each year. */
  function SeriesData(top: seq<TagCount>, i: nat, random: nat -> real, ln: nat -> real): (data: seq<real>)
    requires i < |top|
    ensures |data| == |Years|
  {
    seq(|Years|, k requires 0 <= k < |Years| => YearPercentages(top, k, random, ln)[i])
  }

  /** The report's `tags` list before the sort: one series per top tag, in top-list order. */
  function ReportSeries(top: seq<TagCount>, random: nat -> real, ln: nat -> real): (series: seq<TagSeries>)
    ensures |series| == |top|
  {
    seq(|top|, i requires 0 <= i < |top| =>
      var data := SeriesData(top, i, random, ln);
      TagSeries(top[i].0, data, Mean(data)))
  }

  /**
   * Everything of the report after the top-10 selection: the yearly counts, the
   * yearly totals, the percentages and the sorted `tags_data`.
   */
  method BuildReport(top: seq<TagCount>, random: nat -> real, ln: nat -> real)
    returns (tags: seq<TagSeries>, totals: map<int, int>)
    requires DistinctNames(top)
    ensures forall y :: y in totals <==> y in Years
    ensures forall k :: 0 <= k < |Years| ==> totals[Years[k]] == SumInts(YearCounts(top, k, random, ln))
    ensures tags == SortDesc(ReportSeries(top, random, ln), AverageKey)
  {
    var yearlyData := BuildYearlyData(top, random, ln);
    assert CoversTop(yearlyData, top);
    var percentages;
    totals, percentages := ComputeYearStats(top, yearlyData);
    ColumnsAreYearCounts(top, yearlyData, random, ln);
    assert SharesCover(percentages, top);
    tags := BuildTagsData(top, percentages);
    SeriesListIsReport(top, yearlyData, totals, percentages, random, ln);
  }

  /** Each year's column of `yearly_data` is that year's list of synthetic counts. */
  lemma ColumnsAreYearCounts(top: seq<TagCount>, yearlyData: map<int, map<string, int>>,
                             random: nat -> real, ln: nat -> real)
    requires CoversTop(yearlyData, top)
    requires forall i, k :: 0 <= i < |top| && 0 <= k < |Years| ==>
      yearlyData[Years[k]][top[i].0] == CountOf(top, i, k, random, ln)
    ensures forall k :: 0 <= k < |Years| ==> Column(top, yearlyData[Years[k]]) == YearCounts(top, k, random, ln)
  {
    forall k | 0 <= k < |Years| ensures Column(top, yearlyData[Years[k]]) == YearCounts(top, k, random, ln) {
      assert Years[k] in yearlyData;
    }
  }

  /** `tags_data` built from the percentage dicts is the report series of the synthetic counts. */
  lemma SeriesListIsReport(top: seq<TagCount>, yearlyData: map<int, map<string, int>>, totals: map<int, int>,
                           p: map<int, map<string, real>>, random: nat -> real, ln: nat -> real)
    requires CoversTop(yearlyData, top) && SharesCover(p, top)
    requires forall y :: y in totals <==> y in Years
    requires forall y :: y in p <==> y in Years
    requires forall i, k :: 0 <= i < |top| && 0 <= k < |Years| ==>
      yearlyData[Years[k]][top[i].0] == CountOf(top, i, k, random, ln)
    requires forall k :: 0 <= k < |Years| ==> Column(top, yearlyData[Years[k]]) == YearCounts(top, k, random, ln)
    requires forall y :: y in Years ==> totals[y] == SumInts(Column(top, yearlyData[y]))
    requires forall y, t :: y in Years && t in p[y] ==>
      t in yearlyData[y] && p[y][t] == Percentage(yearlyData[y][t], totals[y])
    ensures SeriesList(top, p) == ReportSeries(top, random, ln)
  {
    forall i | 0 <= i < |top| ensures TagData(top[i].0, p) == SeriesData(top, i, random, ln) {
      forall k | 0 <= k < |Years| ensures TagData(top[i].0, p)[k] == SeriesData(top, i, random, ln)[k] {
        ShareIsReport(top, yearlyData, totals, p, random, ln, i, k);
      }
    }
  }

  /** The percentage of top tag `i` in year `Years[k]` is its unrounded share of that year's counts. */
  lemma ShareIsReport(top: seq<TagCount>, yearlyData: map<int, map<string, int>>, totals: map<int, int>,
                      p: map<int, map<string, real>>, random: nat -> real, ln: nat -> real, i: nat, k: nat)
    requires CoversTop(yearlyData, top) && SharesCover(p, top)
    requires i < |top| && k < |Years|
    requires forall y :: y in totals <==> y in Years
    requires forall y :: y in p <==> y in Years
    requires yearlyData[Years[k]][top[i].0] == CountOf(top, i, k, random, ln)
    requires Column(top, yearlyData[Years[k]]) == YearCounts(top, k, random, ln)
    requires totals[Years[k]] == SumInts(Column(top, yearlyData[Years[k]]))
    requires top[i].0 in p[Years[k]] ==>
      top[i].0 in yearlyData[Years[k]] && p[Years[k]][top[i].0] == Percentage(yearlyData[Years[k]][top[i].0], totals[Years[k]])
    ensures TagData(top[i].0, p)[k] == YearPercentages(top, k, random, ln)[i]
  {
    assert YearCounts(top, k, random, ln)[i] == CountOf(top, i, k, random, ln);
  }

  /**
   * The report's `tags` list has one series per top tag, ordered by average,
   * descending; series with equal averages keep their top-list order.
   */
  lemma {:induction false} ReportTagsSpec(top: seq<TagCount>, random: nat -> real, ln: nat -> real)
    ensures var sorted := SortDesc(ReportSeries(top, random, ln), AverageKey);
      && |sorted| == |top|
      && NonIncreasing(sorted, AverageKey)
      && multiset(sorted) == multiset(ReportSeries(top, random, ln))
      && (forall v :: WithKey(sorted, AverageKey, v) == WithKey(ReportSeries(top, random, ln), AverageKey, v))
      && (forall i :: 0 <= i < |sorted| ==> exists j ::
            && 0 <= j < |top|
            && sorted[i].name == top[j].0
            && sorted[i].data == SeriesData(top, j, random, ln)
            && sorted[i].average == Mean(sorted[i].data))
  {
    var series := ReportSeries(top, random, ln);
    var sorted := SortDesc(series, AverageKey);
    SortDescSpec(series, AverageKey);
    forall i | 0 <= i < |sorted|
      ensures exists j ::
        && 0 <= j < |top|
        && sorted[i].name == top[j].0
        && sorted[i].data == SeriesData(top, j, random, ln)
        && sorted[i].average == Mean(sorted[i].data)
    {
      assert sorted[i] in multiset(series);
      var j :| 0 <= j < |series| && series[j] == sorted[i];
    }
  }

  /** Every draw of `random.random()` lies in [0, 1). */
  ghost predicate UnitDraws(random: nat -> real) {
    forall n: nat :: 0.0 <= random(n) < 1.0
  }

  /** `math.log` is non-negative from 1 on. */
  ghost predicate LogNonNegative(ln: nat -> real) {
    forall n: nat :: n >= 1 ==> ln(n) >= 0.0
  }

  /** With real draws and non-negative base counts, every synthetic count is non-negative. */
  lemma YearCountsNonNegative(top: seq<TagCount>, k: nat, random: nat -> real, ln: nat -> real)
    requires UnitDraws(random) && LogNonNegative(ln)
    requires forall i :: 0 <= i < |top| ==> top[i].1 >= 0
    ensures forall i :: 0 <= i < |top| ==> YearCounts(top, k, random, ln)[i] >= 0
  {
    forall i | 0 <= i < |top| ensures YearCounts(top, k, random, ln)[i] >= 0 {
      assert ln(k + 2) >= 0.0;
      SyntheticCountNonNegative(top[i].1, k, random(Periods * i + k), ln);
    }
  }

  /** A top tag seen at least 4 times makes every year's total positive. */
  lemma YearTotalPositive(top: seq<TagCount>, k: nat, random: nat -> real, ln: nat -> real, j: nat)
    requires UnitDraws(random) && LogNonNegative(ln)
    requires forall i :: 0 <= i < |top| ==> top[i].1 >= 0
    requires j < |top| && top[j].1 >= 4
    ensures SumInts(YearCounts(top, k, random, ln)) >= 1
  {
    var c := YearCounts(top, k, random, ln);
    YearCountsNonNegative(top, k, random, ln);
    SumAtLeast(c);
    assert ln(k + 2) >= 0.0;
    SyntheticCountPositive(top[j].1, k, random(Periods * j + k), ln);
    assert c[j] == CountOf(top, j, k, random, ln);
  }

  /**
   * A year's percentages: 0 for every tag when the year's total is 0; otherwise
   * each between 0 and 100 and together exactly 100.
   */
  lemma YearPercentagesSpec(top: seq<TagCount>, k: nat, random: nat -> real, ln: nat -> real)
    requires UnitDraws(random) && LogNonNegative(ln)
    requires forall i :: 0 <= i < |top| ==> top[i].1 >= 0
    ensures var shares := YearPercentages(top, k, random, ln);
      && (forall i :: 0 <= i < |top| ==> 0.0 <= shares[i] <= 100.0)
      && (SumInts(YearCounts(top, k, random, ln)) == 0 ==> forall i :: 0 <= i < |top| ==> shares[i] == 0.0)
      && (SumInts(YearCounts(top, k, random, ln)) > 0 ==> SumReals(shares) == 100.0)
  {
    var c := YearCounts(top, k, random, ln);
    YearCountsNonNegative(top, k, random, ln);
    SumAtLeast(c);
    forall i | 0 <= i < |top| ensures 0.0 <= YearPercentages(top, k, random, ln)[i] <= 100.0 {
      PercentageBounds(c[i], SumInts(c));
    }
    if SumInts(c) > 0 {
      SharesSumTo100(c);
    }
  }
}
