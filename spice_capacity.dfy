/**
 * Finding the QuickSight datasets that hold the most SPICE capacity: the size information of
 * every dataset summary (the capacity asked of `describe_data_set` for SPICE datasets only),
 * then the datasets at or above a minimum capacity, largest first, cut to the top N. The
 * QuickSight API is a parameter.
 */
module SpiceCapacity {
  import opened Wrappers
  import opened Strings
  import opened Sorting

  /** `ImportMode = Literal["SPICE", "DIRECT_QUERY"]` */
  datatype ImportMode = Spice | DirectQuery

  /** The fields of a `list_data_sets` summary. */
  datatype DatasetSummary = DatasetSummary(
    arn: string, dataSetId: string, name: string, createdTime: string, lastUpdatedTime: string,
    importMode: ImportMode, rowLevelPermissionTagConfigurationApplied: bool,
    columnLevelPermissionRulesApplied: bool)

  /** `DatasetSizeInfo` */
  datatype DatasetSizeInfo = DatasetSizeInfo(
    arn: string, dataSetId: string, name: string, importMode: ImportMode, consumedSpiceCapacityInBytes: int)

  /**
   * What `describe_quicksight_dataset(account_id, dataset_id)` gives: it raises, or returns a
   * falsy value, or returns the dataset with or without a `ConsumedSpiceCapacityInBytes` entry.
   */
  datatype Description = DescribeRaises | Falsy | Described(consumed: Option<int>)

  /** `get_top_spice_capacity_datasets`' defaults: ten datasets, at least 128 MiB. */
  const DEFAULT_TOP_N: int := 10
  const DEFAULT_MINIMUM_CAPACITY_IN_BYTES: int := 128 * 1024 * 1024

  /**
   * The capacity recorded for one summary: 0 unless the dataset is a SPICE dataset whose
   * description carries a capacity. A call that raises, a falsy answer and a missing entry
   * (whose `KeyError` the same `except` catches) all leave the 0 in place.
   */
  function ConsumedCapacity(summary: DatasetSummary, accountId: string,
                            describe: (string, string) -> Description): int {
    if summary.importMode != Spice then 0
    else
      match describe(accountId, summary.dataSetId)
      case Described(Some(c)) => c
      case _ => 0
  }

  /** The size information of one summary. */
  function SizeInfo(summary: DatasetSummary, accountId: string, describe: (string, string) -> Description): DatasetSizeInfo {
    DatasetSizeInfo(summary.arn, summary.dataSetId, summary.name, summary.importMode,
                    ConsumedCapacity(summary, accountId, describe))
  }

  /** The size information of every summary, in order. */
  function SizeInfos(summaries: seq<DatasetSummary>, accountId: string,
                     describe: (string, string) -> Description): (infos: seq<DatasetSizeInfo>)
    ensures |infos| == |summaries|
  {
    seq(|summaries|, i requires 0 <= i < |summaries| => SizeInfo(summaries[i], accountId, describe))
  }

  /**
   * Each size information copies its summary's ARN, id, name and import mode. Its capacity is
   * described capacity of a SPICE dataset, and 0 for every other dataset and for every SPICE
   * dataset whose description raised, was falsy or had no capacity.
   */
  lemma SizeInfosCopy(summaries: seq<DatasetSummary>, accountId: string,
                      describe: (string, string) -> Description, i: int)
    requires 0 <= i < |summaries|
    ensures var info, summary := SizeInfos(summaries, accountId, describe)[i], summaries[i];
      && info.arn == summary.arn && info.dataSetId == summary.dataSetId
      && info.name == summary.name && info.importMode == summary.importMode
      && (info.consumedSpiceCapacityInBytes != 0 ==>
            summary.importMode == Spice
            && describe(accountId, summary.dataSetId) == Described(Some(info.consumedSpiceCapacityInBytes)))
      && (summary.importMode == Spice && describe(accountId, summary.dataSetId).Described?
          && describe(accountId, summary.dataSetId).consumed.Some? ==>
            info.consumedSpiceCapacityInBytes == describe(accountId, summary.dataSetId).consumed.value)
  {
  }

  /**
   * `get_datasets_size_infos`: one record per summary with a capacity of 0, overwritten by the
   * description's capacity for SPICE datasets when the call succeeds.
   */
  method GetDatasetsSizeInfos(summaries: seq<DatasetSummary>, accountId: string,
                              describe: (string, string) -> Description)
    returns (results: seq<DatasetSizeInfo>)
    ensures results == SizeInfos(summaries, accountId, describe)
  {
    results := [];
    for i := 0 to |summaries|
      invariant results == SizeInfos(summaries[..i], accountId, describe)
    {
      var summary := summaries[i];
      var info := DatasetSizeInfo(summary.arn, summary.dataSetId, summary.name, summary.importMode, 0);
      if summary.importMode == Spice {
        var dataset := describe(accountId, summary.dataSetId);
        if dataset.Described? && dataset.consumed.Some? {
          info := info.(consumedSpiceCapacityInBytes := dataset.consumed.value);
        }
      }
      results := results + [info];
    }
    assert summaries[..|summaries|] == summaries;
  }

  /** The sort key: `reverse=True` on the capacity is the stable ascending sort of its negation. */
  function Descending(info: DatasetSizeInfo): real {
    -(info.consumedSpiceCapacityInBytes as real)
  }

  function AtLeast(minimum: int): DatasetSizeInfo -> bool {
    (info: DatasetSizeInfo) => info.consumedSpiceCapacityInBytes >= minimum
  }

  /** The datasets at or above the minimum, largest first, ties in input order. */
  function Ranked(infos: seq<DatasetSizeInfo>, minimum: int): seq<DatasetSizeInfo> {
    SortBy(Filter(infos, AtLeast(minimum)), Descending)
  }

  /** `get_top_spice_capacity_datasets(datasets_size_infos, top_n, minimum_capacity_in_bytes)` */
  function TopSpiceCapacityDatasets(infos: seq<DatasetSizeInfo>, topN: int, minimum: int): seq<DatasetSizeInfo> {
    PySlice(Ranked(infos, minimum), 0, topN)
  }

  /** The slice `[:top_n]` is the first `top_n` datasets, or all but the last `-top_n` when it is negative. */
  lemma TopIsPrefix(infos: seq<DatasetSizeInfo>, topN: int, minimum: int)
    ensures var ranked := Ranked(infos, minimum);
      var n := |Filter(infos, AtLeast(minimum))|;
      && |ranked| == n
      && |TopSpiceCapacityDatasets(infos, topN, minimum)|
           == (if topN >= 0 then (if topN < n then topN else n) else if n + topN < 0 then 0 else n + topN)
      && TopSpiceCapacityDatasets(infos, topN, minimum) == ranked[..|TopSpiceCapacityDatasets(infos, topN, minimum)|]
  {
  }

  /**
   * Every returned dataset is one of the input's, at or above the minimum, none more often than
   * in the input, and the capacities do not increase along the result.
   */
  lemma TopBoundsAndOrder(infos: seq<DatasetSizeInfo>, topN: int, minimum: int)
    ensures var top := TopSpiceCapacityDatasets(infos, topN, minimum);
      && multiset(top) <= multiset(Filter(infos, AtLeast(minimum)))
      && (forall i :: 0 <= i < |top| ==> top[i] in infos && top[i].consumedSpiceCapacityInBytes >= minimum)
      && (forall i, j :: 0 <= i < j < |top| ==>
            top[i].consumedSpiceCapacityInBytes >= top[j].consumedSpiceCapacityInBytes)
  {
    var ranked := Ranked(infos, minimum);
    var top := TopSpiceCapacityDatasets(infos, topN, minimum);
    var filtered := Filter(infos, AtLeast(minimum));
    TopIsPrefix(infos, topN, minimum);
    PrefixMultiset(ranked, |top|);
    assert multiset(top) <= multiset(filtered);
    forall i | 0 <= i < |top|
      ensures top[i] in infos && top[i].consumedSpiceCapacityInBytes >= minimum
    {
      assert top[i] in multiset(top);
      FilterSubset(infos, AtLeast(minimum), top[i]);
    }
    PrefixSorted(ranked, |top|, Descending);
    forall i, j | 0 <= i < j < |top|
      ensures top[i].consumedSpiceCapacityInBytes >= top[j].consumedSpiceCapacityInBytes
    {
      assert Descending(top[i]) <= Descending(top[j]);
    }
  }

  lemma PrefixMultiset<T>(s: seq<T>, n: nat)
    requires n <= |s|
    ensures multiset(s[..n]) <= multiset(s)
  {
    assert s == s[..n] + s[n..];
  }

  /**
   * A dataset at or above the minimum that was left out holds no more capacity than any
   * returned dataset.
   */
  lemma LeftOutNotLarger(infos: seq<DatasetSizeInfo>, topN: int, minimum: int, x: DatasetSizeInfo)
    requires x in infos && x.consumedSpiceCapacityInBytes >= minimum
    requires x !in TopSpiceCapacityDatasets(infos, topN, minimum)
    ensures forall i :: 0 <= i < |TopSpiceCapacityDatasets(infos, topN, minimum)| ==>
      TopSpiceCapacityDatasets(infos, topN, minimum)[i].consumedSpiceCapacityInBytes >= x.consumedSpiceCapacityInBytes
  {
    var ranked := Ranked(infos, minimum);
    var top := TopSpiceCapacityDatasets(infos, topN, minimum);
    TopIsPrefix(infos, topN, minimum);
    FilterKeeps(infos, AtLeast(minimum), x);
    assert x in multiset(ranked);
    LaterNotBefore(ranked, |top|, Descending, x);
    forall i | 0 <= i < |top| ensures top[i].consumedSpiceCapacityInBytes >= x.consumedSpiceCapacityInBytes {
      assert Descending(top[i]) <= Descending(x);
    }
  }

  /** In a sorted list, an element outside the first `n` has a key no smaller than theirs. */
  lemma LaterNotBefore<T>(s: seq<T>, n: nat, key: T -> real, x: T)
    requires SortedBy(s, key) && n <= |s| && x in s && x !in s[..n]
    ensures forall i :: 0 <= i < n ==> key(s[i]) <= key(x)
  {
    var j :| 0 <= j < |s| && s[j] == x;
    assert forall k :: 0 <= k < n ==> s[..n][k] == s[k];
    assert j >= n;
  }

  function HasCapacity(c: int): DatasetSizeInfo -> bool {
    (info: DatasetSizeInfo) => info.consumedSpiceCapacityInBytes == c
  }

  /** Filtering a prefix gives a prefix of the filtered list. */
  lemma FilterOfPrefix<T>(s: seq<T>, n: nat, p: T -> bool)
    requires n <= |s|
    ensures |Filter(s[..n], p)| <= |Filter(s, p)|
    ensures Filter(s[..n], p) == Filter(s, p)[..|Filter(s[..n], p)|]
  {
    assert s == s[..n] + s[n..];
    FilterAppend(s[..n], s[n..], p);
  }

  /**
   * Ties keep their input order: the returned datasets of any one capacity are the first of
   * that capacity among the qualifying input datasets, in input order.
   */
  lemma TopIsStable(infos: seq<DatasetSizeInfo>, topN: int, minimum: int, c: int)
    ensures var same := Filter(TopSpiceCapacityDatasets(infos, topN, minimum), HasCapacity(c));
      var all := Filter(Filter(infos, AtLeast(minimum)), HasCapacity(c));
      |same| <= |all| && same == all[..|same|]
  {
    var q := Filter(infos, AtLeast(minimum));
    var top := TopSpiceCapacityDatasets(infos, topN, minimum);
    var k := -(c as real);
    TopIsPrefix(infos, topN, minimum);
    assert top == SortBy(q, Descending)[..|top|];
    SortedPrefixIsStable(q, Descending, |top|, k);
    CapacityIsKey(c, k);
    FilterSameFunction(top, HasCapacity(c), HasKey(Descending, k));
    FilterSameFunction(q, HasCapacity(c), HasKey(Descending, k));
  }

  lemma CapacityIsKey(c: int, k: real)
    requires k == -(c as real)
    ensures forall info :: HasCapacity(c)(info) == HasKey(Descending, k)(info)
  {
    forall info ensures HasCapacity(c)(info) == HasKey(Descending, k)(info) {
      var x := info.consumedSpiceCapacityInBytes;
      assert Descending(info) == -(x as real);
      assert x == c <==> x as real == c as real;
    }
  }

  /** The first `n` of a stable sort hold, of each key, the first elements of that key in input order. */
  lemma SortedPrefixIsStable<T>(xs: seq<T>, key: T -> real, n: nat, k: real)
    requires n <= |SortBy(xs, key)|
    ensures var same := Filter(SortBy(xs, key)[..n], HasKey(key, k));
      |same| <= |Filter(xs, HasKey(key, k))| && same == Filter(xs, HasKey(key, k))[..|same|]
  {
    FilterOfPrefix(SortBy(xs, key), n, HasKey(key, k));
    SortIsStable(xs, key, k);
  }

  /** Filters by two conditions that agree everywhere give the same list. */
  lemma {:induction false} FilterSameFunction<T>(s: seq<T>, p: T -> bool, q: T -> bool)
    requires forall y :: p(y) == q(y)
    ensures Filter(s, p) == Filter(s, q)
    decreases |s|
  {
    if s != [] {
      FilterSameFunction(s[1..], p, q);
    }
  }

  /**
   * `list_top_spice_capacity_datasets` over the summaries `list_data_sets` returned: the size
   * information, then the top datasets.
   */
  method ListTopSpiceCapacityDatasets(summaries: seq<DatasetSummary>, accountId: string,
                                      describe: (string, string) -> Description, topN: int, minimum: int)
    returns (top: seq<DatasetSizeInfo>)
    ensures top == TopSpiceCapacityDatasets(SizeInfos(summaries, accountId, describe), topN, minimum)
  {
    var infos := GetDatasetsSizeInfos(summaries, accountId, describe);
    top := TopSpiceCapacityDatasets(infos, topN, minimum);
  }

  /** The description of a SPICE dataset reported this capacity. */
  predicate DescribedSpice(summary: DatasetSummary, accountId: string,
                           describe: (string, string) -> Description, capacity: int) {
    summary.importMode == Spice && describe(accountId, summary.dataSetId) == Described(Some(capacity))
  }

  /**
   * With a positive minimum, every listed dataset comes from a summary of a SPICE dataset whose
   * description reported its capacity, and that capacity is at least the minimum.
   */
  lemma ListedAreDescribedSpice(summaries: seq<DatasetSummary>, accountId: string,
                                describe: (string, string) -> Description, topN: int, minimum: int)
    requires minimum > 0
    ensures var top := TopSpiceCapacityDatasets(SizeInfos(summaries, accountId, describe), topN, minimum);
      forall i :: 0 <= i < |top| ==>
        && top[i].consumedSpiceCapacityInBytes >= minimum
        && (exists k :: 0 <= k < |summaries| && summaries[k].dataSetId == top[i].dataSetId
             && DescribedSpice(summaries[k], accountId, describe, top[i].consumedSpiceCapacityInBytes))
  {
    var infos := SizeInfos(summaries, accountId, describe);
    var top := TopSpiceCapacityDatasets(infos, topN, minimum);
    TopBoundsAndOrder(infos, topN, minimum);
    forall i | 0 <= i < |top|
      ensures exists k :: (0 <= k < |summaries| && summaries[k].dataSetId == top[i].dataSetId
        && DescribedSpice(summaries[k], accountId, describe, top[i].consumedSpiceCapacityInBytes))
    {
      var k :| 0 <= k < |infos| && infos[k] == top[i];
      SizeInfosCopy(summaries, accountId, describe, k);
    }
  }
}
