/**
 * `TestListViewModel`: the list of recorded tests, newest first, each with counts of its
 * results by status. The store's Flow is modelled by the list of emissions the collector
 * receives, followed by the exception that ends it, if any.
 */
module TestList {
  import opened Wrappers
  import opened Entities
  import opened DataModels
  import opened Collections

  /** One row of the list. */
  datatype TestListItem = TestListItem(
    id: Long,
    testDate: Date,
    labName: string,
    numberOfValues: nat,
    normalCount: nat,
    abnormalCount: nat,
    criticalCount: nat)

  predicate IsNormal(r: BloodTestResult) { r.status == Normal }
  predicate IsAbnormal(r: BloodTestResult) { r.status == High || r.status == Low }
  predicate IsCritical(r: BloodTestResult) { r.status == CriticalHigh || r.status == CriticalLow }

  /**
   * The row of one test: its id, date and laboratory, the number of results and how many
   * are NORMAL, HIGH or LOW, CRITICAL_HIGH or CRITICAL_LOW. The three counts add up to the
   * number of results, and each is zero exactly when no result has such a status.
   */
  function ToTestListItem(t: BloodTestWithResults): (item: TestListItem)
    ensures item.id == t.bloodTest.id && item.testDate == t.bloodTest.testDate
    ensures item.labName == t.bloodTest.labName
    ensures item.numberOfValues == |t.results|
    ensures item.normalCount == |Filter(t.results, IsNormal)|
    ensures item.abnormalCount == |Filter(t.results, IsAbnormal)|
    ensures item.criticalCount == |Filter(t.results, IsCritical)|
    ensures item.normalCount + item.abnormalCount + item.criticalCount == item.numberOfValues
    ensures item.normalCount == 0 <==> !Any(t.results, IsNormal)
    ensures item.abnormalCount == 0 <==> !Any(t.results, IsAbnormal)
    ensures item.criticalCount == 0 <==> !Any(t.results, IsCritical)
  {
    CountPartition(t.results, IsNormal, IsAbnormal, IsCritical);
    TestListItem(t.bloodTest.id, t.bloodTest.testDate, t.bloodTest.labName, |t.results|,
      Count(t.results, IsNormal), Count(t.results, IsAbnormal), Count(t.results, IsCritical))
  }

  /** `sortedByDescending { it.bloodTest.testDate }`: ascending on the negated milliseconds. */
  function DescendingDateKey(t: BloodTestWithResults): int
  {
    -(t.bloodTest.testDate.time as int)
  }

  /** The same key read off a row. */
  function ItemDateKey(item: TestListItem): int
  {
    -(item.testDate.time as int)
  }

  /** The rows the list shows for one emission of the store. */
  function TestListItems(tests: seq<BloodTestWithResults>): (items: seq<TestListItem>)
    ensures |items| == |tests|
  {
    var sorted := SortByKey(tests, DescendingDateKey);
    assert |sorted| == |multiset(sorted)| == |multiset(tests)| == |tests|;
    MapSeq(sorted, ToTestListItem)
  }

  /** The rows: one per test, the newest first. */
  lemma TestListNewestFirst(tests: seq<BloodTestWithResults>)
    ensures var items := TestListItems(tests);
      && |items| == |tests|
      && (forall i, j :: 0 <= i < j < |items| ==> items[i].testDate.time >= items[j].testDate.time)
  {
    var sorted := SortByKey(tests, DescendingDateKey);
    var items := TestListItems(tests);
    assert |sorted| == |multiset(sorted)| == |multiset(tests)| == |tests|;
    forall i, j | 0 <= i < j < |items| ensures items[i].testDate.time >= items[j].testDate.time {
      assert DescendingDateKey(sorted[i]) <= DescendingDateKey(sorted[j]);
    }
  }

  /** The rows are exactly the rows of the emitted tests, each as often as its test. */
  lemma TestListPermutation(tests: seq<BloodTestWithResults>)
    ensures multiset(TestListItems(tests)) == multiset(MapSeq(tests, ToTestListItem))
  {
    MapPreservesPermutation(SortByKey(tests, DescendingDateKey), tests, ToTestListItem);
  }

  /** Tests of the same date keep the order the store emitted them in. */
  lemma TestListStable(tests: seq<BloodTestWithResults>, k: int)
    ensures FilterBy(TestListItems(tests), ItemDateKey, k) == MapSeq(FilterBy(tests, DescendingDateKey, k), ToTestListItem)
  {
    var sorted := SortByKey(tests, DescendingDateKey);
    assert forall t :: ItemDateKey(ToTestListItem(t)) == DescendingDateKey(t);
    FilterByMap(sorted, ToTestListItem, DescendingDateKey, ItemDateKey, k);
    SortByKeyStable(tests, DescendingDateKey, k);
  }

  /** The screen state (`TestListUiState`) and the operations that change it. */
  class TestListViewModel {
    var tests: seq<TestListItem>
    var isLoading: bool
    var isRefreshing: bool
    var error: Option<string>
    var deleteSuccess: bool

    /**
     * The initial state (an empty list, loading), then `init`'s `loadTests` with what the
     * store delivers.
     */
    constructor(emissions: seq<seq<BloodTestWithResults>>, failure: Option<Option<string>>)
      ensures tests == (if emissions == [] then [] else TestListItems(emissions[|emissions| - 1]))
      ensures isLoading == (emissions == [] && failure.None?)
      ensures !isRefreshing && !deleteSuccess
      ensures error == (if failure.Some? then Some(failure.value.GetOr("Failed to load tests")) else None)
    {
      tests := [];
      isLoading := true;
      isRefreshing := false;
      error := None;
      deleteSuccess := false;
      new;
      LoadTests(emissions, failure);
    }

    /**
     * `loadTests`: set the loading flag, then replace the rows on every emission and clear
     * the flag; an exception records its message (or "Failed to load tests") and clears the
     * flag too.
     */
    method LoadTests(emissions: seq<seq<BloodTestWithResults>>, failure: Option<Option<string>>)
      modifies this
      ensures tests == (if emissions == [] then old(tests) else TestListItems(emissions[|emissions| - 1]))
      ensures isLoading == (emissions == [] && failure.None?)
      ensures error == (if failure.Some? then Some(failure.value.GetOr("Failed to load tests")) else old(error))
      ensures isRefreshing == old(isRefreshing) && deleteSuccess == old(deleteSuccess)
    {
      isLoading := true;
      for i := 0 to |emissions|
        invariant tests == (if i == 0 then old(tests) else TestListItems(emissions[i - 1]))
        invariant isLoading == (i == 0)
        invariant error == old(error)
        invariant isRefreshing == old(isRefreshing) && deleteSuccess == old(deleteSuccess)
      {
        tests := TestListItems(emissions[i]);
        isLoading := false;
      }
      if failure.Some? {
        error := Some(failure.value.GetOr("Failed to load tests"));
        isLoading := false;
      }
    }

    /**
     * `refreshTests`: as `loadTests`, with the refreshing flag in place of the loading flag
     * and "Failed to refresh tests" as the fallback message.
     */
    method RefreshTests(emissions: seq<seq<BloodTestWithResults>>, failure: Option<Option<string>>)
      modifies this
      ensures tests == (if emissions == [] then old(tests) else TestListItems(emissions[|emissions| - 1]))
      ensures isRefreshing == (emissions == [] && failure.None?)
      ensures error == (if failure.Some? then Some(failure.value.GetOr("Failed to refresh tests")) else old(error))
      ensures isLoading == old(isLoading) && deleteSuccess == old(deleteSuccess)
    {
      isRefreshing := true;
      for i := 0 to |emissions|
        invariant tests == (if i == 0 then old(tests) else TestListItems(emissions[i - 1]))
        invariant isRefreshing == (i == 0)
        invariant error == old(error)
        invariant isLoading == old(isLoading) && deleteSuccess == old(deleteSuccess)
      {
        tests := TestListItems(emissions[i]);
        isRefreshing := false;
      }
      if failure.Some? {
        error := Some(failure.value.GetOr("Failed to refresh tests"));
        isRefreshing := false;
      }
    }

    /**
     * `deleteTest`: asks the store to delete a test built from the id alone (the other
     * fields are defaults, the dates the current time `now`) and returns that request; on
     * success the delete flag is set, on an exception its message (or "Failed to delete
     * test") is recorded. The list itself changes only through the next emission.
     */
    method DeleteTest(testId: Long, now: Date, deleted: Outcome<Option<string>>) returns (request: BloodTest)
      modifies this
      ensures request == BloodTest(testId, now, "", "", "", now)
      ensures deleted.Pass? ==> deleteSuccess && error == old(error)
      ensures deleted.Fail? ==> (deleteSuccess == old(deleteSuccess)
        && error == Some(deleted.error.GetOr("Failed to delete test")))
      ensures tests == old(tests) && isLoading == old(isLoading) && isRefreshing == old(isRefreshing)
    {
      request := BloodTest(testId, now, "", "", "", now);
      match deleted
      case Pass =>
        deleteSuccess := true;
      case Fail(message) =>
        error := Some(message.GetOr("Failed to delete test"));
    }

    /** `clearError`: only the error goes. */
    method ClearError()
      modifies this
      ensures error.None?
      ensures tests == old(tests) && isLoading == old(isLoading) && isRefreshing == old(isRefreshing)
      ensures deleteSuccess == old(deleteSuccess)
    {
      error := None;
    }

    /** `clearDeleteSuccess`: only the delete flag goes. */
    method ClearDeleteSuccess()
      modifies this
      ensures !deleteSuccess
      ensures tests == old(tests) && isLoading == old(isLoading) && isRefreshing == old(isRefreshing)
      ensures error == old(error)
    {
      deleteSuccess := false;
    }
  }
}
