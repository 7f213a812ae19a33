/**
 * `process_csv` end to end: the existence check, the header check, the tally with
 * its error paths, the top-10 selection and the report with its metadata.
 */
module App {
  import opened Wrappers
  import opened StableSort
  import opened Aggregator
  import opened ReportBuilder

  /**
   * The CSV file as `csv.DictReader` presents it: the header row (`None` when the
   * file is empty) and the Tag value of each data row.
   */
  datatype CsvFile = CsvFile(fieldnames: Option<seq<string>>, tagColumn: seq<TagField>)

  /** The report's `metadata` dict. */
  datatype Metadata = Metadata(totalRows: nat, processedRows: nat, uniqueTags: nat, topTagsCount: nat)

  /** The dict `process_csv` returns on success. */
  datatype Report = Report(years: seq<int>, tags: seq<TagSeries>, totalQuestions: map<int, int>, metadata: Metadata)

  const FileNotFound := "CSV file not found"
  const InvalidStructure := "Invalid CSV structure"
  const NoValidData := "No valid data found in CSV"
  const ReadErrorPrefix := "Error reading CSV file: "

  /** The text of the `TypeError` that `'Tag' in None` raises. */
  const NoHeaderError := "argument of type 'NoneType' is not iterable"

  /** The header fields `process_csv` insists on. */
  const RequiredFields: seq<string> := ["Tag"]

  /** The file exists and its header names every required field. */
  predicate HasTagColumn(file: Option<CsvFile>) {
    && file.Some?
    && file.value.fieldnames.Some?
    && forall f :: f in RequiredFields ==> f in file.value.fieldnames.value
  }

  /** The top ten `(tag, count)` pairs of the tally of `rows`. */
  function TopOfRows(rows: seq<TagField>): seq<TagCount> {
    var tags := NonBlankTags(rows);
    CountMapCounts(tags);
    TopTags(FirstSeen(tags), CountMap(tags))
  }

  /**
   * `report` is what `process_csv` returns for the Tag values `rows`: the years,
   * metadata that mirrors the tally, each year's total of the synthetic counts, and
   * the tag series sorted by average.
   */
  ghost predicate IsReportOf(report: Report, rows: seq<TagField>, random: nat -> real, ln: nat -> real) {
    var tags := NonBlankTags(rows);
    var top := TopOfRows(rows);
    && report.years == Years
    && report.metadata == Metadata(|rows|, |tags|, |CountMap(tags)|, |top|)
    && 0 < report.metadata.processedRows <= report.metadata.totalRows
    && report.metadata.uniqueTags == |FirstSeen(tags)|
    && report.metadata.topTagsCount == Min(TopCount, report.metadata.uniqueTags)
    && (forall y :: y in report.totalQuestions <==> y in Years)
    && (forall k :: 0 <= k < |Years| ==>
          report.totalQuestions[Years[k]] == SumInts(YearCounts(top, k, random, ln)))
    && report.tags == SortDesc(ReportSeries(top, random, ln), AverageKey)
  }

  /**
   * `process_csv` on a file (`None` when it does not exist), the draws of
   * `random.random()` and `math.log`. Every error is an `{'error': ...}` result.
   */
  method ProcessCsv(file: Option<CsvFile>, random: nat -> real, ln: nat -> real)
    returns (r: Result<Report, string>)
    ensures file.None? ==> r == Failure(FileNotFound)
    ensures file.Some? && file.value.fieldnames.None? ==> r == Failure(ReadErrorPrefix + NoHeaderError)
    ensures file.Some? && file.value.fieldnames.Some? && "Tag" !in file.value.fieldnames.value ==>
      r == Failure(InvalidStructure)
    ensures HasTagColumn(file) && None in file.value.tagColumn ==>
      r == Failure(ReadErrorPrefix + NoneStripError)
    ensures HasTagColumn(file) && None !in file.value.tagColumn && NonBlankTags(file.value.tagColumn) == [] ==>
      r == Failure(NoValidData)
    ensures r.Success? <==>
      HasTagColumn(file) && None !in file.value.tagColumn && NonBlankTags(file.value.tagColumn) != []
    ensures r.Success? ==> IsReportOf(r.value, file.value.tagColumn, random, ln)
  {
    if file.None? {
      return Failure(FileNotFound);
    }
    var csv := file.value;
    if csv.fieldnames.None? {
      return Failure(ReadErrorPrefix + NoHeaderError);
    }
    if !(forall f :: f in RequiredFields ==> f in csv.fieldnames.value) {
      return Failure(InvalidStructure);
    }
    assert RequiredFields[0] == "Tag";
    assert "Tag" in csv.fieldnames.value;
    var tally := CountTags(csv.tagColumn);
    if tally.Failure? {
      return Failure(ReadErrorPrefix + tally.error);
    }
    if tally.value.processedRows == 0 {
      return Failure(NoValidData);
    }
    var report := MakeReport(csv.tagColumn, tally.value, random, ln);
    return Success(report);
  }

  /**
   * `process_csv` as it evidently means to work: a file without a header fails the
   * structure check, and a row without a Tag value is skipped like a blank one.
   */
  method ProcessCsvIntended(file: Option<CsvFile>, random: nat -> real, ln: nat -> real)
    returns (r: Result<Report, string>)
    ensures file.None? ==> r == Failure(FileNotFound)
    ensures file.Some? && !HasTagColumn(file) ==> r == Failure(InvalidStructure)
    ensures HasTagColumn(file) && NonBlankTags(file.value.tagColumn) == [] ==> r == Failure(NoValidData)
    ensures r.Success? <==> HasTagColumn(file) && NonBlankTags(file.value.tagColumn) != []
    ensures r.Success? ==> IsReportOf(r.value, file.value.tagColumn, random, ln)
  {
    if file.None? {
      return Failure(FileNotFound);
    }
    var csv := file.value;
    if csv.fieldnames.None? || !(forall f :: f in RequiredFields ==> f in csv.fieldnames.value) {
      return Failure(InvalidStructure);
    }
    var tally := CountTagsSkipping(csv.tagColumn);
    if tally.processedRows == 0 {
      return Failure(NoValidData);
    }
    var report := MakeReport(csv.tagColumn, tally, random, ln);
    return Success(report);
  }

  /**
   * An empty file: `ProcessCsv` reports the `TypeError` of `'Tag' in None`, a
   * message other than the structure error the header check is there to give.
   */
  lemma EmptyFileIsReadError(file: Option<CsvFile>)
    requires file.Some? && file.value.fieldnames.None?
    ensures !HasTagColumn(file)
    ensures ReadErrorPrefix + NoHeaderError != InvalidStructure
  {
    assert (ReadErrorPrefix + NoHeaderError)[0] != InvalidStructure[0];
  }

  /** Lines 85-159 of `process_csv`: the top-10 selection and the report of a non-empty tally. */
  method MakeReport(rows: seq<TagField>, t: Tally, random: nat -> real, ln: nat -> real) returns (report: Report)
    requires t.totalRows == |rows| && t.processedRows == |NonBlankTags(rows)| > 0
    requires t.order == FirstSeen(NonBlankTags(rows)) && t.counts == CountMap(NonBlankTags(rows))
    ensures IsReportOf(report, rows, random, ln)
  {
    MetadataFacts(rows);
    var top := TopTags(t.order, t.counts);
    var tagsData, totals := BuildReport(top, random, ln);
    var metadata := Metadata(t.totalRows, t.processedRows, |t.counts|, |top|);
    var totalQuestions := map y | y in Years :: totals[y];
    report := Report(Years, tagsData, totalQuestions, metadata);
  }

  /**
   * The metadata counters of a tally: at most one processed row per row read, one
   * unique tag per distinct stripped value, and `min(10, unique_tags)` top tags.
   */
  lemma MetadataFacts(rows: seq<TagField>)
    ensures var tags := NonBlankTags(rows);
      && |tags| <= |rows|
      && (forall i :: 0 <= i < |FirstSeen(tags)| ==> FirstSeen(tags)[i] in CountMap(tags))
      && |CountMap(tags)| == |FirstSeen(tags)|
      && |TopOfRows(rows)| == Min(TopCount, |CountMap(tags)|)
      && DistinctNames(TopOfRows(rows))
  {
    var tags := NonBlankTags(rows);
    CountMapCounts(tags);
    UniqueTagsCount(tags);
    TopTagsSpec(FirstSeen(tags), CountMap(tags));
  }

  /** Every pair of the top list is a tally entry with a count of at least 1. */
  lemma TopCountsPositive(rows: seq<TagField>)
    ensures forall i :: 0 <= i < |TopOfRows(rows)| ==> TopOfRows(rows)[i].1 >= 1
  {
    var tags := NonBlankTags(rows);
    var order := FirstSeen(tags);
    var counts := CountMap(tags);
    CountMapCounts(tags);
    TopTagsSpec(order, counts);
    var top := TopOfRows(rows);
    forall i | 0 <= i < |top| ensures top[i].1 >= 1 {
      assert top[i].0 in tags;
    }
  }

  /**
   * A tag that occurs at least 4 times makes every year's total positive, so every
   * year's unrounded percentages add up to exactly 100.
   */
  lemma FrequentTagFillsEveryYear(rows: seq<TagField>, random: nat -> real, ln: nat -> real, tag: string)
    requires UnitDraws(random) && LogNonNegative(ln)
    requires multiset(NonBlankTags(rows))[tag] >= 4
    ensures forall k :: 0 <= k < |Years| ==>
      && SumInts(YearCounts(TopOfRows(rows), k, random, ln)) >= 1
      && SumReals(YearPercentages(TopOfRows(rows), k, random, ln)) == 100.0
  {
    var tags := NonBlankTags(rows);
    var order := FirstSeen(tags);
    var counts := CountMap(tags);
    CountMapCounts(tags);
    TopTagsSpec(order, counts);
    TopCountsPositive(rows);
    var top := TopOfRows(rows);
    assert tag in counts && counts[tag] >= 4;
    assert |top| >= 1;
    var j: nat := 0;
    if exists i :: 0 <= i < |top| && top[i].0 == tag {
      var i :| 0 <= i < |top| && top[i].0 == tag;
      j := i;
    } else {
      TopTagsAreLargest(order, counts, tag);
    }
    assert top[j].1 >= 4;
    forall k | 0 <= k < |Years|
      ensures SumInts(YearCounts(top, k, random, ln)) >= 1
      ensures SumReals(YearPercentages(top, k, random, ln)) == 100.0
    {
      YearTotalPositive(top, k, random, ln, j);
      YearPercentagesSpec(top, k, random, ln);
    }
  }
}
