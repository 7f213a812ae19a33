/**
 * The tally half of `process_csv`: count the stripped, non-empty Tag values of the
 * rows (a `defaultdict(int)`, whose keys keep first-insertion order), then pick the
 * ten most frequent tags with a stable descending sort.
 */
module Aggregator {
  import opened Wrappers
  import opened Text
  import opened StableSort

  /**
   * The Tag value of one row as `csv.DictReader` yields it: `None` when the row has
   * fewer fields than the position of the `Tag` column (the reader's default fill value).
   */
  type TagField = Option<string>

  /** The text of the `AttributeError` that `None.strip()` raises. */
  const NoneStripError := "'NoneType' object has no attribute 'strip'"

  /** The number of tags `process_csv` keeps. */
  const TopCount: nat := 10

  /** The tally after the row loop: the dict's keys in insertion order, the dict, and the two counters. */
  datatype Tally = Tally(order: seq<string>, counts: map<string, int>, totalRows: nat, processedRows: nat)

  /** The stripped Tag values that are non-empty, in row order: what the loop counts. */
  function NonBlankTags(rows: seq<TagField>): (tags: seq<string>)
    ensures |tags| <= |rows|
    ensures forall i :: 0 <= i < |tags| ==> tags[i] != ""
  {
    if rows == [] then []
    else
      var prefix := NonBlankTags(rows[..|rows| - 1]);
      match rows[|rows| - 1]
      case Some(field) => if Strip(field) != "" then prefix + [Strip(field)] else prefix
      case None => prefix
  }

  /** The distinct elements of `s`, each where it first occurs. */
  function FirstSeen(s: seq<string>): (r: seq<string>)
    ensures Distinct(r)
    ensures forall t :: t in r <==> t in s
  {
    if s == [] then []
    else
      var p := FirstSeen(s[..|s| - 1]);
      var x := s[|s| - 1];
      if x in p then p else p + [x]
  }

  /** The dict `tag_counts` after counting the tags of `s` one by one. */
  function CountMap(s: seq<string>): map<string, int> {
    if s == [] then map[]
    else
      var m := CountMap(s[..|s| - 1]);
      var x := s[|s| - 1];
      m[x := (if x in m then m[x] else 0) + 1]
  }

  /** `tag_counts` maps exactly the tags seen, each to its number of occurrences. */
  lemma {:induction false} CountMapCounts(s: seq<string>)
    ensures forall t :: t in CountMap(s) <==> t in s
    ensures forall t :: t in CountMap(s) ==> CountMap(s)[t] == multiset(s)[t]
  {
    if s != [] {
      var p := s[..|s| - 1];
      CountMapCounts(p);
      assert s == p + [s[|s| - 1]];
    }
  }

  /** Only non-empty stripped tags are counted, so the dict never has an empty key. */
  lemma NoEmptyTag(rows: seq<TagField>)
    ensures "" !in CountMap(NonBlankTags(rows))
  {
    CountMapCounts(NonBlankTags(rows));
  }

  /** The sum of the counts of `keys`. */
  function SumCounts(keys: seq<string>, counts: map<string, int>): int
    requires forall i :: 0 <= i < |keys| ==> keys[i] in counts
  {
    if keys == [] then 0
    else SumCounts(keys[..|keys| - 1], counts) + counts[keys[|keys| - 1]]
  }

  /** Where `x` first occurs in `s`. */
  function FirstIndex(s: seq<string>, x: string): (r: nat)
    requires x in s
    ensures r < |s| && s[r] == x && x !in s[..r]
  {
    if s[0] == x then 0 else 1 + FirstIndex(s[1..], x)
  }

  /**
   * The loop of `process_csv` over the rows. A `None` Tag makes `strip` raise an
   * `AttributeError`, which the row's `except (ValueError, KeyError)` does not catch,
   * so the whole tally fails with that error.
   */
  method CountTags(rows: seq<TagField>) returns (r: Result<Tally, string>)
    ensures r.Failure? <==> None in rows
    ensures r.Failure? ==> r.error == NoneStripError
    ensures r.Success? ==>
      var tags := NonBlankTags(rows);
      && r.value.totalRows == |rows|
      && r.value.processedRows == |tags|
      && r.value.order == FirstSeen(tags)
      && r.value.counts == CountMap(tags)
  {
    var tagCounts: map<string, int> := map[];
    var order: seq<string> := [];
    var totalRows: nat := 0;
    var processedRows: nat := 0;
    ghost var seen: seq<string> := [];
    while totalRows < |rows|
      invariant totalRows <= |rows|
      invariant None !in rows[..totalRows]
      invariant seen == NonBlankTags(rows[..totalRows])
      invariant processedRows == |seen|
      invariant order == FirstSeen(seen)
      invariant tagCounts == CountMap(seen)
    {
      var row := rows[totalRows];
      totalRows := totalRows + 1;
      match row
      case None =>
        return Failure(NoneStripError);
      case Some(field) =>
        NonBlankTagsSnoc(rows, totalRows - 1, field);
        var tag := Strip(field);
        if tag != "" {
          order, tagCounts := Increment(order, tagCounts, tag, seen);
          processedRows := processedRows + 1;
          seen := seen + [tag];
        }
    }
    assert rows[..totalRows] == rows;
    return Success(Tally(order, tagCounts, totalRows, processedRows));
  }

  lemma NonBlankTagsSnoc(rows: seq<TagField>, i: nat, field: string)
    requires i < |rows| && rows[i] == Some(field)
    ensures None !in rows[..i] ==> None !in rows[..i + 1]
    ensures NonBlankTags(rows[..i + 1]) ==
      NonBlankTags(rows[..i]) + if Strip(field) != "" then [Strip(field)] else []
  {
    assert rows[..i + 1][..i] == rows[..i];
  }

  /** A row without a Tag value adds no tag. */
  lemma NoneRowSnoc(rows: seq<TagField>, i: nat)
    requires i < |rows| && rows[i] == None
    ensures NonBlankTags(rows[..i + 1]) == NonBlankTags(rows[..i])
  {
    assert rows[..i + 1][..i] == rows[..i];
  }

  /**
   * A row with a non-blank tag followed by a row too short to reach the Tag column:
   * a valid tag is present, yet `CountTags` fails on these rows, because its failure
   * condition is `None in rows`.
   */
  lemma ShortRowAbortsTally(rows: seq<TagField>, tag: string)
    requires |rows| == 2 && rows[0] == Some(tag) && rows[1] == None
    requires Strip(tag) != ""
    ensures None in rows && NonBlankTags(rows) == [Strip(tag)]
  {
    assert NonBlankTags(rows[..1]) == [Strip(tag)] by {
      NonBlankTagsSnoc(rows, 0, tag);
      assert rows[..0] == [];
    }
    assert NonBlankTags(rows) == NonBlankTags(rows[..1]) by {
      NoneRowSnoc(rows, 1);
      assert rows[..2] == rows;
    }
  }


  /**
   * The row loop as it evidently means to work: a row without a Tag value is
   * skipped like a blank one, so the tally never fails.
   */
  method CountTagsSkipping(rows: seq<TagField>) returns (t: Tally)
    ensures t.totalRows == |rows|
    ensures t.processedRows == |NonBlankTags(rows)|
    ensures t.order == FirstSeen(NonBlankTags(rows))
    ensures t.counts == CountMap(NonBlankTags(rows))
  {
    var tagCounts: map<string, int> := map[];
    var order: seq<string> := [];
    var totalRows: nat := 0;
    var processedRows: nat := 0;
    ghost var seen: seq<string> := [];
    while totalRows < |rows|
      invariant totalRows <= |rows|
      invariant seen == NonBlankTags(rows[..totalRows])
      invariant processedRows == |seen|
      invariant order == FirstSeen(seen)
      invariant tagCounts == CountMap(seen)
    {
      order, tagCounts, processedRows := CountRow(rows[totalRows], order, tagCounts, processedRows, seen);
      RowSnoc(rows, totalRows);
      seen := seen + RowTag(rows[totalRows]);
      totalRows := totalRows + 1;
    }
    assert rows[..totalRows] == rows;
    t := Tally(order, tagCounts, totalRows, processedRows);
  }

  /** The tag one row adds to the tally: none for a missing or blank Tag value. */
  function RowTag(row: TagField): (tags: seq<string>)
    ensures |tags| <= 1
  {
    match row
    case None => []
    case Some(field) => if Strip(field) != "" then [Strip(field)] else []
  }

  lemma RowSnoc(rows: seq<TagField>, i: nat)
    requires i < |rows|
    ensures NonBlankTags(rows[..i + 1]) == NonBlankTags(rows[..i]) + RowTag(rows[i])
  {
    assert rows[..i + 1][..i] == rows[..i];
  }

  /** The body of the row loop, skipping a row without a Tag value. `seen` is the tags counted so far. */
  method CountRow(row: TagField, order: seq<string>, tagCounts: map<string, int>, processedRows: nat,
                  ghost seen: seq<string>)
    returns (order': seq<string>, tagCounts': map<string, int>, processedRows': nat)
    requires order == FirstSeen(seen) && tagCounts == CountMap(seen) && processedRows == |seen|
    ensures order' == FirstSeen(seen + RowTag(row)) && tagCounts' == CountMap(seen + RowTag(row))
    ensures processedRows' == |seen + RowTag(row)|
  {
    order', tagCounts', processedRows' := order, tagCounts, processedRows;
    match row {
      case None =>
        assert seen + RowTag(row) == seen;
      case Some(field) =>
        var tag := Strip(field);
        if tag != "" {
          order', tagCounts' := Increment(order, tagCounts, tag, seen);
          processedRows' := processedRows + 1;
        } else {
          assert seen + RowTag(row) == seen;
        }
    }
  }



  /** The rows the loop does not count: those without a Tag value and those whose Tag strips to nothing. */
  function SkippedRows(rows: seq<TagField>): nat {
    if rows == [] then 0
    else
      var skipped := match rows[|rows| - 1]
        case None => 1
        case Some(field) => if Strip(field) == "" then 1 else 0;
      SkippedRows(rows[..|rows| - 1]) + skipped
  }

  /** Every row is either counted or skipped: `total_rows - processed_rows` is the number of skipped rows. */
  lemma {:induction false} SkippedRowsCount(rows: seq<TagField>)
    ensures |NonBlankTags(rows)| + SkippedRows(rows) == |rows|
  {
    if rows != [] {
      SkippedRowsCount(rows[..|rows| - 1]);
    }
  }

  lemma FirstSeenSnoc(s: seq<string>, x: string)
    ensures FirstSeen(s + [x]) == if x in s then FirstSeen(s) else FirstSeen(s) + [x]
  {
    assert (s + [x])[..|s|] == s;
  }

  /**
   * `tag_counts[tag] += 1` on a defaultdict: a missing key reads as 0 and is
   * inserted at the end of the key order. `seen` is the tags counted so far.
   */
  method Increment(order: seq<string>, tagCounts: map<string, int>, tag: string, ghost seen: seq<string>)
    returns (order': seq<string>, tagCounts': map<string, int>)
    requires order == FirstSeen(seen) && tagCounts == CountMap(seen)
    ensures order' == FirstSeen(seen + [tag]) && tagCounts' == CountMap(seen + [tag])
    ensures tag in tagCounts' && tagCounts'[tag] >= 1
  {
    CountMapCounts(seen);
    FirstSeenSnoc(seen, tag);
    CountMapSnoc(seen, tag);
    var current := if tag in tagCounts then tagCounts[tag] else 0;
    order' := if tag in tagCounts then order else order + [tag];
    tagCounts' := tagCounts[tag := current + 1];
  }

  lemma CountMapSnoc(s: seq<string>, x: string)
    ensures CountMap(s + [x]) == CountMap(s)[x := (if x in CountMap(s) then CountMap(s)[x] else 0) + 1]
  {
    assert (s + [x])[..|s|] == s;
  }

  lemma {:induction false} SumCountsAgree(keys: seq<string>, m1: map<string, int>, m2: map<string, int>)
    requires forall i :: 0 <= i < |keys| ==> keys[i] in m1 && keys[i] in m2 && m1[keys[i]] == m2[keys[i]]
    ensures SumCounts(keys, m1) == SumCounts(keys, m2)
  {
    if keys != [] {
      SumCountsAgree(keys[..|keys| - 1], m1, m2);
    }
  }

  lemma {:induction false} SumCountsIncrement(keys: seq<string>, m: map<string, int>, x: string)
    requires Distinct(keys) && x in keys
    requires forall i :: 0 <= i < |keys| ==> keys[i] in m
    ensures SumCounts(keys, m[x := m[x] + 1]) == SumCounts(keys, m) + 1
  {
    var init := keys[..|keys| - 1];
    var last := keys[|keys| - 1];
    if last == x {
      assert x !in init;
      SumCountsAgree(init, m, m[x := m[x] + 1]);
    } else {
      SumCountsIncrement(init, m, x);
    }
  }

  /**
   * Every processed row adds one to exactly one count, so the counts of the dict
   * add up to `processed_rows`.
   */
  lemma {:induction false} CountsSumToProcessed(tags: seq<string>)
    ensures forall i :: 0 <= i < |FirstSeen(tags)| ==> FirstSeen(tags)[i] in CountMap(tags)
    ensures SumCounts(FirstSeen(tags), CountMap(tags)) == |tags|
  {
    if tags != [] {
      var p := tags[..|tags| - 1];
      var x := tags[|tags| - 1];
      assert p + [x] == tags;
      var fs := FirstSeen(p);
      CountsSumToProcessed(p);
      CountMapCounts(p);
      CountMapSnoc(p, x);
      FirstSeenSnoc(p, x);
      var m := CountMap(p);
      var m' := CountMap(tags);
      if x in p {
        SumCountsIncrement(fs, m, x);
        SumCountsAgree(fs, m[x := m[x] + 1], m');
      } else {
        SumCountsAgree(fs, m, m');
        assert (fs + [x])[..|fs|] == fs;
      }
    }
  }

  /** `FirstSeen` lists the tags in the order in which each first occurs. */
  lemma {:induction false} FirstSeenOrder(s: seq<string>)
    ensures forall i, j :: 0 <= i < j < |FirstSeen(s)| ==>
      FirstIndex(s, FirstSeen(s)[i]) < FirstIndex(s, FirstSeen(s)[j])
  {
    if s != [] {
      var p := s[..|s| - 1];
      var x := s[|s| - 1];
      assert p + [x] == s;
      FirstSeenOrder(p);
      var fs := FirstSeen(p);
      forall t | t in p ensures FirstIndex(s, t) == FirstIndex(p, t) {
        FirstIndexSnoc(p, x, t);
      }
      if x !in p {
        assert FirstIndex(s, x) == |p|;
      }
    }
  }

  lemma {:induction false} FirstIndexSnoc(s: seq<string>, y: string, x: string)
    requires x in s
    ensures FirstIndex(s + [y], x) == FirstIndex(s, x)
  {
    if s[0] != x {
      assert (s + [y])[1..] == s[1..] + [y];
      FirstIndexSnoc(s[1..], y, x);
    }
  }

  /** `len(tag_counts)`: the dict has one key per distinct tag. */
  lemma {:induction false} UniqueTagsCount(tags: seq<string>)
    ensures |CountMap(tags)| == |FirstSeen(tags)|
  {
    var fs := FirstSeen(tags);
    CountMapCounts(tags);
    assert CountMap(tags).Keys == set t | t in fs;
    DistinctCardinality(fs);
  }

  lemma {:induction false} DistinctCardinality(s: seq<string>)
    requires Distinct(s)
    ensures |set t | t in s| == |s|
  {
    if s != [] {
      var p := s[..|s| - 1];
      DistinctCardinality(p);
      assert (set t | t in s) == (set t | t in p) + {s[|s| - 1]};
    }
  }

  /** A tag and its count, as `tag_counts.items()` yields them. */
  type TagCount = (string, int)

  /** `tag_counts.items()`: the pairs in key-insertion order. */
  function Items(order: seq<string>, counts: map<string, int>): seq<TagCount>
    requires forall i :: 0 <= i < |order| ==> order[i] in counts
  {
    seq(|order|, i requires 0 <= i < |order| => (order[i], counts[order[i]]))
  }

  /** The sort key `lambda x: x[1]`. */
  function CountKey(p: TagCount): real {
    p.1 as real
  }

  function Min(a: int, b: int): int {
    if a < b then a else b
  }

  /** `sorted(tag_counts.items(), key=lambda x: x[1], reverse=True)[:10]`. */
  function TopTags(order: seq<string>, counts: map<string, int>): seq<TagCount>
    requires forall i :: 0 <= i < |order| ==> order[i] in counts
  {
    var sorted := SortDesc(Items(order, counts), CountKey);
    sorted[..Min(TopCount, |sorted|)]
  }

  /** No tag appears twice. */
  predicate DistinctNames(top: seq<TagCount>) {
    forall i, j :: 0 <= i < j < |top| ==> top[i].0 != top[j].0
  }

  /** Every pair of the sorted items is a dict entry of a tag in the key order. */
  lemma SortedItemsAreEntries(order: seq<string>, counts: map<string, int>, sorted: seq<TagCount>)
    requires forall i :: 0 <= i < |order| ==> order[i] in counts
    requires sorted == SortDesc(Items(order, counts), CountKey)
    ensures forall i :: 0 <= i < |sorted| ==>
      sorted[i].0 in order && sorted[i].0 in counts && sorted[i].1 == counts[sorted[i].0]
  {
    var items := Items(order, counts);
    SortDescSpec(items, CountKey);
    forall i | 0 <= i < |sorted|
      ensures sorted[i].0 in order && sorted[i].0 in counts && sorted[i].1 == counts[sorted[i].0]
    {
      assert sorted[i] in multiset(items);
      var j :| 0 <= j < |items| && items[j] == sorted[i];
    }
  }

  /**
   * The top list has min(10, number of tags) entries, ordered by non-increasing
   * count; each is an entry of the dict, each tag at most once; and for every count
   * value, the kept tags with that count are the first-inserted ones with that
   * count, in insertion order.
   */
  lemma TopTagsSpec(order: seq<string>, counts: map<string, int>)
    requires Distinct(order)
    requires forall i :: 0 <= i < |order| ==> order[i] in counts
    ensures var top := TopTags(order, counts);
      && |top| == Min(TopCount, |order|)
      && NonIncreasing(top, CountKey)
      && (forall i :: 0 <= i < |top| ==> top[i].0 in order && top[i].0 in counts && top[i].1 == counts[top[i].0])
      && DistinctNames(top)
      && (forall v :: WithKey(top, CountKey, v) <= WithKey(Items(order, counts), CountKey, v))
  {
    TopTagsShape(order, counts);
    TopTagsDistinct(order, counts);
    TopTagsStable(order, counts);
  }

  lemma TopTagsShape(order: seq<string>, counts: map<string, int>)
    requires forall i :: 0 <= i < |order| ==> order[i] in counts
    ensures var top := TopTags(order, counts);
      && |top| == Min(TopCount, |order|)
      && NonIncreasing(top, CountKey)
      && (forall i :: 0 <= i < |top| ==> top[i].0 in order && top[i].0 in counts && top[i].1 == counts[top[i].0])
  {
    var items := Items(order, counts);
    var sorted := SortDesc(items, CountKey);
    SortDescPermutes(items, CountKey);
    SortDescSorted(items, CountKey);
    SortedItemsAreEntries(order, counts, sorted);
  }

  lemma TopTagsDistinct(order: seq<string>, counts: map<string, int>)
    requires Distinct(order)
    requires forall i :: 0 <= i < |order| ==> order[i] in counts
    ensures DistinctNames(TopTags(order, counts))
  {
    var items := Items(order, counts);
    var sorted := SortDesc(items, CountKey);
    SortedItemsAreEntries(order, counts, sorted);
    assert Distinct(items) by {
      forall i, j | 0 <= i < j < |items| ensures items[i] != items[j] {
        assert items[i].0 == order[i] && items[j].0 == order[j];
      }
    }
    SortDescDistinct(items, CountKey);
    var top := TopTags(order, counts);
    assert top == sorted[..Min(TopCount, |sorted|)];
    forall i, j | 0 <= i < j < |top| ensures top[i].0 != top[j].0 {
      assert top[i] == sorted[i] && top[j] == sorted[j];
      assert sorted[i] != sorted[j];
      assert sorted[i].1 == counts[sorted[i].0] && sorted[j].1 == counts[sorted[j].0];
    }
  }

  lemma TopTagsStable(order: seq<string>, counts: map<string, int>)
    requires forall i :: 0 <= i < |order| ==> order[i] in counts
    ensures forall v :: WithKey(TopTags(order, counts), CountKey, v) <= WithKey(Items(order, counts), CountKey, v)
  {
    var items := Items(order, counts);
    var sorted := SortDesc(items, CountKey);
    SortDescPermutes(items, CountKey);
    SortDescStable(items, CountKey);
    var k := Min(TopCount, |sorted|);
    assert sorted[..k] == TopTags(order, counts);
    forall v ensures WithKey(sorted[..k], CountKey, v) <= WithKey(items, CountKey, v) {
      WithKeyPrefix(sorted, k, CountKey, v);
    }
  }

  /** No tag left out of the top list has a larger count than any tag in it. */
  lemma TopTagsAreLargest(order: seq<string>, counts: map<string, int>, t: string)
    requires forall i :: 0 <= i < |order| ==> order[i] in counts
    requires t in order && forall i :: 0 <= i < |TopTags(order, counts)| ==> TopTags(order, counts)[i].0 != t
    ensures forall i :: 0 <= i < |TopTags(order, counts)| ==> TopTags(order, counts)[i].1 >= counts[t]
  {
    var items := Items(order, counts);
    var sorted := SortDesc(items, CountKey);
    SortDescPermutes(items, CountKey);
    SortDescSorted(items, CountKey);
    var k := Min(TopCount, |sorted|);
    var top := sorted[..k];
    assert top == TopTags(order, counts);
    var j :| 0 <= j < |order| && order[j] == t;
    assert items[j] in multiset(sorted);
    var m :| 0 <= m < |sorted| && sorted[m] == items[j];
    assert sorted[m].0 == t;
    assert forall i :: 0 <= i < k ==> sorted[i].0 == top[i].0 != t;
    assert m >= k;
    forall i | 0 <= i < |top| ensures top[i].1 >= counts[t] {
      assert CountKey(sorted[i]) >= CountKey(sorted[m]);
    }
  }
}
