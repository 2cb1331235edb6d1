/**
 * `TestDetailViewModel`: one test with its results grouped by category, and the editing of
 * one result's value. The store is modelled by what it holds when a query runs: the tests
 * with their stored results, and the joined results of each test.
 */
module TestDetail {
  import opened Wrappers
  import opened Entities
  import opened DataModels
  import opened Collections
  import opened BloodworkRepository

  function ResultCategoryOf(r: BloodTestResultWithValue): string
  {
    r.category
  }

  /** `results.groupBy { it.category }`. */
  function GroupResults(results: seq<BloodTestResultWithValue>): (m: map<string, seq<BloodTestResultWithValue>>)
    ensures forall r :: r in results ==> r.category in m && r in m[r.category]
    ensures forall c :: c in m ==> m[c] != [] && forall r :: r in m[c] ==> r in results && r.category == c
  {
    var m := GroupBy(results, ResultCategoryOf);
    assert forall r :: r in results ==> r.category in m by {
      forall r | r in results ensures r.category in m {
        var i :| 0 <= i < |results| && results[i] == r;
        assert ResultCategoryOf(results[i]) == r.category;
      }
    }
    assert forall c :: c in m ==> m[c] != [] by {
      forall c | c in m ensures m[c] != [] {
        var i :| 0 <= i < |results| && ResultCategoryOf(results[i]) == c;
        assert results[i] in m[c];
      }
    }
    m
  }

  /** Each group keeps the order in which the store returned its results. */
  lemma GroupResultsKeepsOrder(results: seq<BloodTestResultWithValue>, c: string)
    requires c in GroupResults(results)
    ensures IsSubsequence(GroupResults(results)[c], results)
    ensures GroupResults(results)[c] == FilterBy(results, ResultCategoryOf, c)
  {
  }

  /**
   * The result `updateResult` writes back: the same result with the new value, its status
   * recomputed against the catalog entry (male range) or kept when the entry is missing.
   */
  function EditedResult(result: BloodTestResultWithValue, newValue: real, definition: Option<BloodValue>): (r: BloodTestResult)
    ensures r.id == result.id && r.testId == result.testId && r.bloodValueId == result.bloodValueId
    ensures r.value == newValue && r.notes == result.notes
    ensures definition.None? ==> r.status == result.status
    ensures definition.Some? ==> r.status == CalculateValueStatus(newValue, definition.value, Male)
  {
    var status := match definition
      case Some(bv) => CalculateValueStatus(newValue, bv, Male)
      case None => result.status;
    BloodTestResult(result.id, result.testId, result.bloodValueId, newValue, status, result.notes)
  }

  /** The stored row behind a joined result. */
  function StoredResult(result: BloodTestResultWithValue): BloodTestResult
  {
    BloodTestResult(result.id, result.testId, result.bloodValueId, result.value, result.status, result.notes)
  }

  /**
   * Writing back an unchanged value changes nothing, as long as the stored status is the
   * one the catalog entry gives (or the entry is missing).
   */
  lemma EditUnchangedValue(result: BloodTestResultWithValue, definition: Option<BloodValue>)
    requires definition.Some? ==> result.status == CalculateValueStatus(result.value, definition.value, Male)
    ensures EditedResult(result, result.value, definition) == StoredResult(result)
  {
  }

  /** Editing twice is editing once, to the second value. */
  lemma EditTwice(result: BloodTestResultWithValue, first: real, second: real, definition: Option<BloodValue>)
    ensures EditedResult(result.(value := first, status := EditedResult(result, first, definition).status), second, definition)
         == EditedResult(result, second, definition)
  {
  }

  /** The screen state (`TestDetailUiState`) and the operations that change it. */
  class TestDetailViewModel {
    var test: Option<BloodTestWithResults>
    var groupedResults: map<string, seq<BloodTestResultWithValue>>
    var isLoading: bool
    var error: Option<string>
    var isDeleting: bool

    /** The initial state: no test, loading. */
    constructor()
      ensures test.None? && groupedResults == map[] && isLoading && error.None? && !isDeleting
    {
      test := None;
      groupedResults := map[];
      isLoading := true;
      error := None;
      isDeleting := false;
    }

    /**
     * `loadTest`: reads the test with its results (null when the store has no such test)
     * and the joined results of that id, grouped by category, and clears the loading flag;
     * an exception records its message (or "Failed to load test") and clears the flag too.
     */
    method LoadTest(testId: Long, tests: map<Long, BloodTestWithResults>,
                    joined: map<Long, seq<BloodTestResultWithValue>>, failure: Option<Option<string>>)
      modifies this
      ensures !isLoading && isDeleting == old(isDeleting)
      ensures failure.None? ==> (test == (if testId in tests then Some(tests[testId]) else None)
        && groupedResults == GroupResults(if testId in joined then joined[testId] else [])
        && error == old(error))
      ensures failure.Some? ==> (test == old(test) && groupedResults == old(groupedResults)
        && error == Some(failure.value.GetOr("Failed to load test")))
    {
      isLoading := true;
      if failure.Some? {
        error := Some(failure.value.GetOr("Failed to load test"));
        isLoading := false;
        return;
      }
      var found := if testId in tests then Some(tests[testId]) else None;
      var results := if testId in joined then joined[testId] else [];
      test := found;
      groupedResults := GroupResults(results);
      isLoading := false;
    }

    /**
     * `updateResult`: nothing happens while no test is shown. Otherwise it writes back the
     * edited result and returns it; after a successful write it reloads the test that is
     * shown (not the result's own test id), after a failed one it records the message (or
     * "Failed to update result").
     */
    method UpdateResult(result: BloodTestResultWithValue, newValue: real, catalog: map<Long, BloodValue>,
                        written: Outcome<Option<string>>, tests: map<Long, BloodTestWithResults>,
                        joined: map<Long, seq<BloodTestResultWithValue>>, reloadFailure: Option<Option<string>>)
      returns (updated: Option<BloodTestResult>)
      modifies this
      ensures old(test).None? ==> (updated.None? && test == old(test) && groupedResults == old(groupedResults)
        && isLoading == old(isLoading) && error == old(error))
      ensures old(test).Some? ==> updated == Some(EditedResult(result, newValue, GetBloodValueById(catalog, result.bloodValueId)))
      ensures old(test).Some? && written.Fail? ==> (error == Some(written.error.GetOr("Failed to update result"))
        && test == old(test) && groupedResults == old(groupedResults) && isLoading == old(isLoading))
      ensures old(test).Some? && written.Pass? && reloadFailure.None? ==> (!isLoading
        && var id := old(test).value.bloodTest.id;
           test == (if id in tests then Some(tests[id]) else None)
           && groupedResults == GroupResults(if id in joined then joined[id] else [])
           && error == old(error))
      ensures old(test).Some? && written.Pass? && reloadFailure.Some? ==> (!isLoading
        && test == old(test) && groupedResults == old(groupedResults)
        && error == Some(reloadFailure.value.GetOr("Failed to load test")))
      ensures isDeleting == old(isDeleting)
    {
      if test.None? {
        return None;
      }
      var currentTest := test.value;
      var edited := EditedResult(result, newValue, GetBloodValueById(catalog, result.bloodValueId));
      updated := Some(edited);
      match written
      case Pass =>
        LoadTest(currentTest.bloodTest.id, tests, joined, reloadFailure);
      case Fail(message) =>
        error := Some(message.GetOr("Failed to update result"));
    }

    /** `clearError`: only the error goes. */
    method ClearError()
      modifies this
      ensures error.None?
      ensures test == old(test) && groupedResults == old(groupedResults)
      ensures isLoading == old(isLoading) && isDeleting == old(isDeleting)
    {
      error := None;
    }
  }
}
