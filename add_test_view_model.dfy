/**
 * `AddTestViewModel`: the form that records a new test. The user picks values from the
 * grouped catalog; saving inserts the test, then one result per picked value, classified
 * against the catalog entry with the male range.
 */
module AddTest {
  import opened Wrappers
  import opened Entities
  import opened DataModels
  import opened BloodworkRepository

  /** The message `saveTest` leaves when nothing is picked. */
  const NothingSelected := "Bitte wählen Sie mindestens einen Blutwert aus"

  /**
   * The picked values after `updateBloodValue(valueId, value)`: a value sets or replaces
   * the entry for `valueId`, null removes it; every other entry stays as it was.
   */
  function Selection(m: map<Long, real>, valueId: Long, value: Option<real>): (r: map<Long, real>)
    ensures valueId in r <==> value.Some?
    ensures value.Some? ==> r[valueId] == value.value
    ensures forall k :: k != valueId ==> (k in r <==> k in m)
    ensures forall k :: k != valueId && k in r ==> r[k] == m[k]
  {
    match value
    case Some(v) => m[valueId := v]
    case None => m - {valueId}
  }

  /** Picking a value that was not picked and then clearing it leaves the selection as it was. */
  lemma SelectionUndo(m: map<Long, real>, valueId: Long, value: real)
    requires valueId !in m
    ensures Selection(Selection(m, valueId, Some(value)), valueId, None) == m
  {
    var r := Selection(Selection(m, valueId, Some(value)), valueId, None);
    assert r.Keys == m.Keys;
  }

  /** Setting the same entry twice keeps only the second value. */
  lemma SelectionLastWins(m: map<Long, real>, valueId: Long, first: Option<real>, second: Option<real>)
    ensures Selection(Selection(m, valueId, first), valueId, second) == Selection(m, valueId, second)
  {
    var a := Selection(Selection(m, valueId, first), valueId, second);
    var b := Selection(m, valueId, second);
    assert a.Keys == b.Keys;
  }

  /** The status stored for a picked value: NORMAL without a catalog entry, else the male classification. */
  function StatusOnSave(value: real, definition: Option<BloodValue>): (s: ValueStatus)
    ensures definition.None? ==> s == Normal
    ensures definition.Some? ==> s == CalculateValueStatus(value, definition.value, Male)
  {
    match definition
    case None => Normal
    case Some(bv) => CalculateValueStatus(value, bv, Male)
  }

  /**
   * The result stored for the picked value `valueId` of the test `testId`: a new id, the
   * picked value, its status on save and no notes.
   */
  function SavedResult(selected: map<Long, real>, valueId: Long, testId: Long, catalog: map<Long, BloodValue>)
    : (r: BloodTestResult)
    requires valueId in selected
    ensures r.id == 0 && r.testId == testId && r.bloodValueId == valueId && r.notes == ""
    ensures r.value == selected[valueId]
    ensures valueId in catalog ==> r.status == CalculateValueStatus(selected[valueId], catalog[valueId], Male)
    ensures valueId !in catalog ==> r.status == Normal
  {
    var value := selected[valueId];
    BloodTestResult(0, testId, valueId, value, StatusOnSave(value, GetBloodValueById(catalog, valueId)), "")
  }

  /** One stored result for a picked value of the test `testId`. */
  ghost predicate ResultFor(r: BloodTestResult, selected: map<Long, real>, testId: Long, catalog: map<Long, BloodValue>)
  {
    r.bloodValueId in selected && r == SavedResult(selected, r.bloodValueId, testId, catalog)
  }

  /** Exactly one stored result per picked value, in some order. */
  ghost predicate ResultsFor(results: seq<BloodTestResult>, selected: map<Long, real>, testId: Long, catalog: map<Long, BloodValue>)
  {
    && |results| == |selected|
    && (forall i :: 0 <= i < |results| ==> ResultFor(results[i], selected, testId, catalog))
    && (forall i, j :: 0 <= i < j < |results| ==> results[i].bloodValueId != results[j].bloodValueId)
    && (forall id :: id in selected ==> exists i :: 0 <= i < |results| && results[i].bloodValueId == id)
  }

  /**
   * The `map` over the picked values in `saveTest`: one result per picked value, none twice
   * for the same blood value (as the store's unique index on test and blood value demands).
   */
  method BuildResults(selected: map<Long, real>, testId: Long, catalog: map<Long, BloodValue>)
    returns (results: seq<BloodTestResult>)
    ensures ResultsFor(results, selected, testId, catalog)
  {
    results := [];
    var remaining := selected.Keys;
    while remaining != {}
      invariant remaining <= selected.Keys
      invariant |results| + |remaining| == |selected|
      invariant forall i :: 0 <= i < |results| ==> ResultFor(results[i], selected, testId, catalog)
      invariant forall i :: 0 <= i < |results| ==> results[i].bloodValueId !in remaining
      invariant forall i, j :: 0 <= i < j < |results| ==> results[i].bloodValueId != results[j].bloodValueId
      invariant forall id :: id in selected && id !in remaining ==>
        exists i :: 0 <= i < |results| && results[i].bloodValueId == id
      decreases remaining
    {
      var id :| id in remaining;
      var prev := results;
      results := prev + [SavedResult(selected, id, testId, catalog)];
      remaining := remaining - {id};
      forall i, j | 0 <= i < j < |results|
        ensures results[i].bloodValueId != results[j].bloodValueId
      {
        assert results[i] == prev[i];
        if j < |prev| {
          assert results[j] == prev[j];
        }
      }
      forall k | k in selected && k !in remaining
        ensures exists i :: 0 <= i < |results| && results[i].bloodValueId == k
      {
        if k == id {
          assert results[|prev|].bloodValueId == k;
        } else {
          var i :| 0 <= i < |prev| && prev[i].bloodValueId == k;
          assert results[i] == prev[i];
        }
      }
    }
  }

  /** The form state (`AddTestUiState`) and the operations that change it. */
  class AddTestViewModel {
    var testDate: Date
    var labName: string
    var notes: string
    var bloodValueCategories: seq<BloodValueCategory>
    var selectedValues: map<Long, real>
    var isLoading: bool
    var error: Option<string>
    var isSaving: bool
    var testSaved: bool

    /**
     * The initial form (dated `now`, nothing picked), then `init`'s
     * `loadBloodValueCategories` with what the store delivers.
     */
    constructor(now: Date, emissions: seq<seq<BloodValue>>, failure: Option<Option<string>>)
      ensures testDate == now && labName == "" && notes == "" && selectedValues == map[]
      ensures bloodValueCategories == (if emissions == [] then [] else BloodValuesByCategory(emissions[|emissions| - 1]))
      ensures isLoading == (emissions == [] && failure.None?)
      ensures error == (if failure.Some? then Some(failure.value.GetOr("Failed to load blood values")) else None)
      ensures !isSaving && !testSaved
    {
      testDate := now;
      labName := "";
      notes := "";
      bloodValueCategories := [];
      selectedValues := map[];
      isLoading := false;
      error := None;
      isSaving := false;
      testSaved := false;
      new;
      LoadBloodValueCategories(emissions, failure);
    }

    /**
     * `loadBloodValueCategories`: set the loading flag, then show the grouped catalog of
     * every emission and clear the flag; an exception records its message (or "Failed to
     * load blood values") and clears the flag too.
     */
    method LoadBloodValueCategories(emissions: seq<seq<BloodValue>>, failure: Option<Option<string>>)
      modifies this
      ensures bloodValueCategories
        == (if emissions == [] then old(bloodValueCategories) else BloodValuesByCategory(emissions[|emissions| - 1]))
      ensures isLoading == (emissions == [] && failure.None?)
      ensures error == (if failure.Some? then Some(failure.value.GetOr("Failed to load blood values")) else old(error))
      ensures testDate == old(testDate) && labName == old(labName) && notes == old(notes)
      ensures selectedValues == old(selectedValues) && isSaving == old(isSaving) && testSaved == old(testSaved)
    {
      isLoading := true;
      for i := 0 to |emissions|
        invariant bloodValueCategories
          == (if i == 0 then old(bloodValueCategories) else BloodValuesByCategory(emissions[i - 1]))
        invariant isLoading == (i == 0)
        invariant error == old(error)
        invariant testDate == old(testDate) && labName == old(labName) && notes == old(notes)
        invariant selectedValues == old(selectedValues) && isSaving == old(isSaving) && testSaved == old(testSaved)
      {
        ShowCategories(emissions[i]);
      }
      if failure.Some? {
        error := Some(failure.value.GetOr("Failed to load blood values"));
        isLoading := false;
      }
    }

    /** The collector of `loadBloodValueCategories`: one emission shows its grouped catalog. */
    method ShowCategories(values: seq<BloodValue>)
      modifies this
      ensures bloodValueCategories == BloodValuesByCategory(values) && !isLoading
      ensures error == old(error)
      ensures testDate == old(testDate) && labName == old(labName) && notes == old(notes)
      ensures selectedValues == old(selectedValues) && isSaving == old(isSaving) && testSaved == old(testSaved)
    {
      bloodValueCategories := BloodValuesByCategory(values);
      isLoading := false;
    }

    /** `updateTestDate`: only the date changes. */
    method UpdateTestDate(date: Date)
      modifies this
      ensures testDate == date
      ensures labName == old(labName) && notes == old(notes) && bloodValueCategories == old(bloodValueCategories)
      ensures selectedValues == old(selectedValues) && isLoading == old(isLoading) && error == old(error)
      ensures isSaving == old(isSaving) && testSaved == old(testSaved)
    {
      testDate := date;
    }

    /** `updateLabName`: only the laboratory changes. */
    method UpdateLabName(name: string)
      modifies this
      ensures labName == name
      ensures testDate == old(testDate) && notes == old(notes) && bloodValueCategories == old(bloodValueCategories)
      ensures selectedValues == old(selectedValues) && isLoading == old(isLoading) && error == old(error)
      ensures isSaving == old(isSaving) && testSaved == old(testSaved)
    {
      labName := name;
    }

    /** `updateNotes`: only the notes change. */
    method UpdateNotes(text: string)
      modifies this
      ensures notes == text
      ensures testDate == old(testDate) && labName == old(labName) && bloodValueCategories == old(bloodValueCategories)
      ensures selectedValues == old(selectedValues) && isLoading == old(isLoading) && error == old(error)
      ensures isSaving == old(isSaving) && testSaved == old(testSaved)
    {
      notes := text;
    }

    /** `updateBloodValue`: sets or clears one picked value; nothing else changes. */
    method UpdateBloodValue(valueId: Long, value: Option<real>)
      modifies this
      ensures selectedValues == Selection(old(selectedValues), valueId, value)
      ensures testDate == old(testDate) && labName == old(labName) && notes == old(notes)
      ensures bloodValueCategories == old(bloodValueCategories) && isLoading == old(isLoading) && error == old(error)
      ensures isSaving == old(isSaving) && testSaved == old(testSaved)
    {
      selectedValues := Selection(selectedValues, valueId, value);
    }

    /**
     * `saveTest`. With nothing picked it only records `NothingSelected`. Otherwise it asks
     * the store to insert the test (a new id, the form's date, laboratory and notes, created
     * `now`), then, with the id the store returns, one result per picked value; the saved
     * flag is set exactly when both inserts succeed. An exception from either insert
     * records its message (or "Failed to save test"); a failure of the second leaves the
     * test inserted without its results. Returns what the store was asked to insert.
     */
    method SaveTest(now: Date, insertedId: Result<Long, Option<string>>, catalog: map<Long, BloodValue>,
                    stored: Outcome<Option<string>>)
      returns (test: Option<BloodTest>, results: seq<BloodTestResult>)
      modifies this
      ensures |old(selectedValues)| == 0 ==> (test.None? && results == [] && error == Some(NothingSelected)
        && isSaving == old(isSaving) && testSaved == old(testSaved))
      ensures |old(selectedValues)| != 0 ==> (!isSaving
        && test == Some(BloodTest(0, old(testDate), old(labName), "", old(notes), now))
        && (testSaved <==> insertedId.Success? && stored.Pass?))
      ensures |old(selectedValues)| != 0 && insertedId.Failure? ==>
        (results == [] && error == Some(insertedId.error.GetOr("Failed to save test")))
      ensures |old(selectedValues)| != 0 && insertedId.Success? ==>
        ResultsFor(results, old(selectedValues), insertedId.value, catalog)
      ensures |old(selectedValues)| != 0 && insertedId.Success? ==>
        error == (if stored.Fail? then Some(stored.error.GetOr("Failed to save test")) else old(error))
      ensures testDate == old(testDate) && labName == old(labName) && notes == old(notes)
      ensures bloodValueCategories == old(bloodValueCategories) && selectedValues == old(selectedValues)
      ensures isLoading == old(isLoading)
    {
      if |selectedValues| == 0 {
        error := Some(NothingSelected);
        return None, [];
      }
      isSaving := true;
      testSaved := false;
      test := Some(BloodTest(0, testDate, labName, "", notes, now));
      if insertedId.Failure? {
        results := [];
        error := Some(insertedId.error.GetOr("Failed to save test"));
        isSaving := false;
        testSaved := false;
        return;
      }
      results := BuildResults(selectedValues, insertedId.value, catalog);
      if stored.Fail? {
        error := Some(stored.error.GetOr("Failed to save test"));
        isSaving := false;
        testSaved := false;
      } else {
        isSaving := false;
        testSaved := true;
      }
    }

    /** `clearError`: only the error goes. */
    method ClearError()
      modifies this
      ensures error.None?
      ensures testDate == old(testDate) && labName == old(labName) && notes == old(notes)
      ensures bloodValueCategories == old(bloodValueCategories) && selectedValues == old(selectedValues)
      ensures isLoading == old(isLoading) && isSaving == old(isSaving) && testSaved == old(testSaved)
    {
      error := None;
    }
  }
}
