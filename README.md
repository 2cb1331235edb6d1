# Bloodwork tracker — a verified model of its evaluation core

Bloodwork tracker is an Android app for recording laboratory blood tests. A catalog of
blood values (`BloodValue`) describes each measurable quantity. An entry has a category,
optional sex-specific and sex-independent normal ranges, optional critical thresholds and a
sort order. A recorded test (`BloodTest`) holds one result (`BloodTestResult`) per measured
value. Each result carries a status: NORMAL, HIGH, LOW, CRITICAL_HIGH or CRITICAL_LOW.

This project models, in Dafny, the parts of the app that compute something:

- **The repository logic.**
  - `calculateValueStatus` classifies a value against its catalog entry.
  - `getBloodValuesByCategory` groups the catalog by category, sorts each group by
    `sortOrder` and sorts the groups by name.
  - `analyzeConstellation` runs four fixed rules (liver, diabetes, kidney, anemia) over the
    joined results of one test.
- **The four view models whose state changes carry logic.**
  - `TestListViewModel`: the list of tests, newest first, with counts by status.
  - `AddTestViewModel`: the new-test form, the picked values and saving.
  - `ValueCategoriesViewModel`: the catalog screen, its search and expanded categories.
  - `TestDetailViewModel`: one test grouped by category, and editing a result.
- **The Room type converters.**

Module layout, one module per source file:

| file | module | models |
|---|---|---|
| `wrappers.dfy` | `Wrappers` | `Option`, `Result` and `Outcome` (an operation that either passes or fails with an error) |
| `collections.dfy` | `Collections` | the Kotlin collection operations the code uses: `filter`, `any`, `find`, `count`, `map`, `groupBy`, stable `sortedBy` |
| `entities.dfy` | `Entities` | `BloodValue`, `BloodTest`, `BloodTestResult`, `ValueStatus`, and `Date` as epoch milliseconds |
| `data_models.dfy` | `DataModels` | `BloodTestWithResults`, `BloodTestResultWithValue`, `BloodValueCategory`, `ConstellationAnalysis`, `AnalysisSeverity`, `Gender` |
| `converters.dfy` | `Converters` | `Converters.kt` |
| `repository.dfy` | `BloodworkRepository` | the three repository operations above |
| `test_list_view_model.dfy` | `TestList` | `TestListViewModel.kt` |
| `add_test_view_model.dfy` | `AddTest` | `AddTestViewModel.kt` |
| `value_categories_view_model.dfy` | `ValueCategories` | `ValueCategoriesViewModel.kt` |
| `test_detail_view_model.dfy` | `TestDetail` | `TestDetailViewModel.kt` |

How the app's effects appear in the model:

- **View models are classes.** A view model becomes a `class` whose fields are its UI-state
  fields. Every `_uiState.value = copy(...)` becomes an assignment in a method that
  `modifies this`.
- **The database is a parameter.** A store query becomes the value it returns. A Flow that a
  view model collects becomes the list of its emissions, followed by the exception that ends
  it, if any: `Option<Option<string>>`, where the inner option is the exception's message.
  A store write becomes an `Outcome`, or a `Result` when it returns an id.
- **`e.message ?: "..."`** becomes `GetOr` on the optional message.
- **`Date()`** (the clock) becomes the parameter `now`.
- **`Double` becomes `real`**, and `Double?` becomes `Option<real>`.
- **`Long` ids and `Int` sort orders** become bounded newtypes. Sizes and counts (`List.size`, `count`) become `nat`.

Behaviours of the code that the model keeps:

- **Critical thresholds are only consulted once a normal range exists.** An entry with no
  complete range gives NORMAL for any value (`CriticalNeedsRange`). A value under a present
  critical-low threshold is CRITICAL_LOW even when it also exceeds critical-high.
- **The detail screen classifies as male.** `updateResult` calls `calculateValueStatus`
  without a gender argument, so the default MALE is used. Saving a new test passes MALE
  explicitly. The model keeps both.

## Model

| member | source | states |
|---|---|---|
| `Converters.FromTimestamp` | app/src/main/java/com/bloodworktracker/data/database/Converters.kt:9-11 | null maps to null; otherwise the date's milliseconds are the given timestamp |
| `Converters.DateToTimestamp` | app/src/main/java/com/bloodworktracker/data/database/Converters.kt:14-16 | null maps to null; otherwise the timestamp is the date's milliseconds |
| `Converters.DateRoundTrip` | app/src/main/java/com/bloodworktracker/data/database/Converters.kt:9-16 | storing a date and reading it back gives the same date, null included |
| `Converters.TimestampRoundTrip` | app/src/main/java/com/bloodworktracker/data/database/Converters.kt:9-16 | reading a timestamp and storing it again gives the same timestamp, null included |
| `Converters.FromValueStatus` | app/src/main/java/com/bloodworktracker/data/database/Converters.kt:19-21 | a status is stored as its constant's name (non-empty; exact names fixed by the round-trip lemmas) |
| `Converters.ToValueStatus` | app/src/main/java/com/bloodworktracker/data/database/Converters.kt:24-26 | succeeds exactly for the five constant names; any other string fails with `valueOf`'s "No enum constant" message |
| `Converters.StatusRoundTrip` | app/src/main/java/com/bloodworktracker/data/database/Converters.kt:19-26 | every status reads back as itself after being stored |
| `Converters.NameRoundTrip` | app/src/main/java/com/bloodworktracker/data/database/Converters.kt:19-26 | every name that reads back as a status is that status's stored name |
| `Converters.FromValueStatusInjective` | app/src/main/java/com/bloodworktracker/data/database/entities/BloodTestResult.kt:51-57 | different statuses are stored under different names |
| `Collections.Any` | app/src/main/java/com/bloodworktracker/data/repository/BloodworkRepository.kt:125 | `any` holds iff some element satisfies the predicate |
| `Collections.AnyIffFilterNonEmpty` | app/src/main/java/com/bloodworktracker/data/repository/BloodworkRepository.kt:124-125 | `any` holds exactly when `filter` keeps at least one element |
| `Collections.Filter` | app/src/main/java/com/bloodworktracker/data/repository/BloodworkRepository.kt:124 | `filter` keeps exactly the elements satisfying the predicate, as an order-preserving subsequence |
| `Collections.FilterMultiset` | app/src/main/java/com/bloodworktracker/data/repository/BloodworkRepository.kt:124 | `filter` keeps each satisfying element as often as it occurs and no other element: no duplicate is dropped |
| `Collections.Find` | app/src/main/java/com/bloodworktracker/data/repository/BloodworkRepository.kt:155-156 | `find` is null exactly when no element matches; otherwise it is the first match |
| `Collections.Count` | app/src/main/java/com/bloodworktracker/ui/viewmodel/TestListViewModel.kt:51-59 | `count` is the number of matching elements, the length of `filter` with the same predicate; at most the length; zero exactly when no element matches |
| `Collections.MapSeq` | app/src/main/java/com/bloodworktracker/data/repository/BloodworkRepository.kt:143 | `map` has the input's length and applies the function at every position |
| `Collections.GroupBy` | app/src/main/java/com/bloodworktracker/ui/viewmodel/TestDetailViewModel.kt:35 | `groupBy` has a key for exactly the keys that occur; each holds the elements with that key, in order |
| `Collections.GroupKeys` | app/src/main/java/com/bloodworktracker/data/repository/BloodworkRepository.kt:32 | the group keys: each occurring key exactly once, and no other |
| `Collections.GroupKeysFirstOccurrence` | app/src/main/java/com/bloodworktracker/data/repository/BloodworkRepository.kt:32 | the group keys are in first-occurrence order: of two keys, the earlier one occurs in the input before every occurrence of the later one |
| `Collections.SortByKey` | app/src/main/java/com/bloodworktracker/data/repository/BloodworkRepository.kt:33 | `sortedBy` returns a permutation of its input, ordered by the key |
| `Collections.SortByKeyStable` | app/src/main/java/com/bloodworktracker/data/repository/BloodworkRepository.kt:33 | `sortedBy` is stable: elements with equal keys keep their input order |
| `BloodworkRepository.SelectRange` | app/src/main/java/com/bloodworktracker/data/repository/BloodworkRepository.kt:99-107 | the range comes from the complete male pair for MALE, else the complete female pair for FEMALE, else the sex-independent pair; none if that is incomplete |
| `BloodworkRepository.GetBloodValueById` | app/src/main/java/com/bloodworktracker/data/repository/BloodworkRepository.kt:43-44 | the catalog entry with that id, or none exactly when the id is absent |
| `BloodworkRepository.CalculateValueStatus` | app/src/main/java/com/bloodworktracker/data/repository/BloodworkRepository.kt:94-116 | NORMAL without a range; with one, CRITICAL_LOW below critical-low first, then CRITICAL_HIGH above critical-high; otherwise LOW iff below min, else HIGH iff above max, else NORMAL (bounds included), whatever the order of min and max |
| `BloodworkRepository.StatusWithoutCriticalThresholds` | app/src/main/java/com/bloodworktracker/data/repository/BloodworkRepository.kt:112-114 | without critical thresholds: LOW iff below min, HIGH iff above max, NORMAL iff min <= value <= max |
| `BloodworkRepository.SexSpecificRangeSelection` | app/src/main/java/com/bloodworktracker/data/repository/BloodworkRepository.kt:100-103 | a complete male (female) pair classifies a MALE (FEMALE) subject exactly as if it were the sex-independent pair |
| `BloodworkRepository.OtherUsesSexIndependentRange` | app/src/main/java/com/bloodworktracker/data/repository/BloodworkRepository.kt:99-106 | sex OTHER is classified as if the entry had no sex-specific ranges |
| `BloodworkRepository.CriticalNeedsRange` | app/src/main/java/com/bloodworktracker/data/repository/BloodworkRepository.kt:104-106 | an entry without the sex-independent minimum and the sex-specific minimums gives NORMAL, whatever the value and thresholds |
| `BloodworkRepository.StrLessLexicographic` | app/src/main/java/com/bloodworktracker/data/repository/BloodworkRepository.kt:34 | the string order used by `sortedBy { it.name }` is lexicographic: a proper prefix is smaller, otherwise the first differing character decides |
| `BloodworkRepository.StrLessTrichotomy` | app/src/main/java/com/bloodworktracker/data/repository/BloodworkRepository.kt:34 | the string order used by `sortedBy { it.name }` is total |
| `BloodworkRepository.StrLessAsymmetric` | app/src/main/java/com/bloodworktracker/data/repository/BloodworkRepository.kt:34 | the string order is asymmetric |
| `BloodworkRepository.StrLessTransitive` | app/src/main/java/com/bloodworktracker/data/repository/BloodworkRepository.kt:34 | the string order is transitive |
| `BloodworkRepository.SortByName` | app/src/main/java/com/bloodworktracker/data/repository/BloodworkRepository.kt:34 | the categories sorted by name: ordered and a permutation of the groups |
| `BloodworkRepository.SortByNameDistinct` | app/src/main/java/com/bloodworktracker/data/repository/BloodworkRepository.kt:34 | sorting groups with distinct names keeps them distinct |
| `BloodworkRepository.CategoryGroup` | app/src/main/java/com/bloodworktracker/data/repository/BloodworkRepository.kt:33 | a category's group carries that name, is ordered by `sortOrder` and is a permutation of that category's values |
| `BloodworkRepository.CategoryGroupContents` | app/src/main/java/com/bloodworktracker/data/repository/BloodworkRepository.kt:32-33 | a group holds exactly the values of its category; equal `sortOrder`s keep catalog order |
| `BloodworkRepository.GroupByCategory` | app/src/main/java/com/bloodworktracker/data/repository/BloodworkRepository.kt:32-33 | one group per category key, the i-th named after the i-th key in first-occurrence order |
| `BloodworkRepository.GroupByCategoryShape` | app/src/main/java/com/bloodworktracker/data/repository/BloodworkRepository.kt:32-33 | one group per category key, in first-occurrence order, each that category's group |
| `BloodworkRepository.BloodValuesByCategory` | app/src/main/java/com/bloodworktracker/data/repository/BloodworkRepository.kt:30-36 | the grouped catalog is ordered by name and is a permutation of the category groups |
| `BloodworkRepository.CatalogNamesAscend` | app/src/main/java/com/bloodworktracker/data/repository/BloodworkRepository.kt:30-34 | the grouped catalog's names are strictly ascending, so no category has two groups |
| `BloodworkRepository.CatalogGroupsAreCategoryGroups` | app/src/main/java/com/bloodworktracker/data/repository/BloodworkRepository.kt:30-34 | every group of the grouped catalog is its category's values sorted by `sortOrder` |
| `BloodworkRepository.CatalogGroupsCover` | app/src/main/java/com/bloodworktracker/data/repository/BloodworkRepository.kt:30-34 | every category that occurs in the catalog has a group |
| `BloodworkRepository.CatalogGroupsOccur` | app/src/main/java/com/bloodworktracker/data/repository/BloodworkRepository.kt:30-34 | every group's name is the category of some catalog value: there is no group for any other category |
| `BloodworkRepository.CatalogGrouping` | app/src/main/java/com/bloodworktracker/data/repository/BloodworkRepository.kt:30-36 | the grouped catalog is strictly ordered by name (one group per category); its groups are exactly the categories that occur in the catalog; each group is that category's values sorted by `sortOrder` |
| `BloodworkRepository.LiverAnalysis` | app/src/main/java/com/bloodworktracker/data/repository/BloodworkRepository.kt:123-151 | no finding for no results; a finding has the liver title, the liver description and its four recommendations |
| `BloodworkRepository.LiverRule` | app/src/main/java/com/bloodworktracker/data/repository/BloodworkRepository.kt:124-150 | fires iff a "Leberwerte" result is HIGH or CRITICAL_HIGH; names exactly those results' codes in input order; CRITICAL iff one is CRITICAL_HIGH, else WARNING iff at least three, else INFO |
| `BloodworkRepository.DiabetesAnalysis` | app/src/main/java/com/bloodworktracker/data/repository/BloodworkRepository.kt:153-183 | no finding for no results; a finding has the diabetes title, the diabetes description and its four recommendations |
| `BloodworkRepository.DiabetesRule` | app/src/main/java/com/bloodworktracker/data/repository/BloodworkRepository.kt:154-182 | fires iff a "Diabetes" GLU is over 126.0 or an HbA1c is over 6.5; names GLU then HbA1c, whichever matched; on the first matches, CRITICAL iff HbA1c is over 9.0, else WARNING iff GLU is over 200.0, else INFO |
| `BloodworkRepository.KidneyAnalysis` | app/src/main/java/com/bloodworktracker/data/repository/BloodworkRepository.kt:185-215 | no finding for no results; a finding has the kidney title, the kidney description and its four recommendations |
| `BloodworkRepository.KidneyRule` | app/src/main/java/com/bloodworktracker/data/repository/BloodworkRepository.kt:186-214 | fires iff a "Nierenwerte" CREA is not NORMAL or a GFR is under 60.0; names CREA then GFR, whichever matched; CRITICAL iff the first GFR match is under 30.0, WARNING iff it is not, INFO iff no GFR matched |
| `BloodworkRepository.AnemiaAnalysis` | app/src/main/java/com/bloodworktracker/data/repository/BloodworkRepository.kt:217-240 | no finding for no results; a finding has the anemia title, the anemia description and its four recommendations |
| `BloodworkRepository.AnemiaRule` | app/src/main/java/com/bloodworktracker/data/repository/BloodworkRepository.kt:218-239 | fires iff a "Kleines Blutbild" Hb is LOW, or both an RBC and an Hkt are LOW; always WARNING; names the LOW ones among Hb, RBC, Hkt in that order |
| `BloodworkRepository.AddFinding` | app/src/main/java/com/bloodworktracker/data/repository/BloodworkRepository.kt:121-139 | the list grows by the rule's finding when there is one and is unchanged otherwise; nothing else enters it |
| `BloodworkRepository.AnalyzeConstellation` | app/src/main/java/com/bloodworktracker/data/repository/BloodworkRepository.kt:119-243 | the findings of the four rules in the order liver, diabetes, kidney, anemia, each at most once; at most four; none for no results; each with four recommendations |
| `BloodworkRepository.LiverExample` | app/src/main/java/com/bloodworktracker/data/repository/BloodworkRepository.kt:130-137 | three HIGH liver values and no CRITICAL_HIGH one give WARNING naming ALT, AST and GGT |
| `BloodworkRepository.DiabetesExamples` | app/src/main/java/com/bloodworktracker/data/repository/BloodworkRepository.kt:155-175 | GLU 130 alone gives INFO ["GLU"]; GLU 210 alone gives WARNING; HbA1c 9.5 alone gives CRITICAL ["HbA1c"] |
| `BloodworkRepository.AnemiaLowHbExample` | app/src/main/java/com/bloodworktracker/data/repository/BloodworkRepository.kt:219-232 | a LOW Hb alone gives WARNING naming only Hb |
| `BloodworkRepository.AnemiaLowRbcHktExample` | app/src/main/java/com/bloodworktracker/data/repository/BloodworkRepository.kt:220-232 | LOW RBC and LOW Hkt together name RBC and Hkt |
| `BloodworkRepository.AnemiaLowRbcAloneExample` | app/src/main/java/com/bloodworktracker/data/repository/BloodworkRepository.kt:223 | a LOW RBC without a LOW Hb or Hkt gives no finding |
| `TestList.ToTestListItem` | app/src/main/java/com/bloodworktracker/ui/viewmodel/TestListViewModel.kt:50-69 | a row copies id, date and laboratory; its number of values is the result count; the normal, abnormal and critical counts are the numbers of results that are NORMAL, HIGH or LOW, and CRITICAL_HIGH or CRITICAL_LOW; together they equal the result count; each is zero iff no result has that status class |
| `TestList.TestListItems` | app/src/main/java/com/bloodworktracker/ui/viewmodel/TestListViewModel.kt:48-70 | one row per emitted test |
| `TestList.TestListNewestFirst` | app/src/main/java/com/bloodworktracker/ui/viewmodel/TestListViewModel.kt:48-70 | one row per emitted test, with dates non-increasing |
| `TestList.TestListPermutation` | app/src/main/java/com/bloodworktracker/ui/viewmodel/TestListViewModel.kt:48-70 | the rows are exactly the rows of the emitted tests, each as often as its test |
| `TestList.TestListStable` | app/src/main/java/com/bloodworktracker/ui/viewmodel/TestListViewModel.kt:49 | tests with the same date keep their emission order |
| `TestList.TestListViewModel.constructor` | app/src/main/java/com/bloodworktracker/ui/viewmodel/TestListViewModel.kt:24-41 | the default state followed by `loadTests` |
| `TestList.TestListViewModel.LoadTests` | app/src/main/java/com/bloodworktracker/ui/viewmodel/TestListViewModel.kt:43-84 | the rows of the last emission; loading cleared once anything arrives; an exception records its message or "Failed to load tests"; other fields unchanged |
| `TestList.TestListViewModel.RefreshTests` | app/src/main/java/com/bloodworktracker/ui/viewmodel/TestListViewModel.kt:109-150 | the same rows as `LoadTests`, with the refreshing flag and "Failed to refresh tests" |
| `TestList.TestListViewModel.DeleteTest` | app/src/main/java/com/bloodworktracker/ui/viewmodel/TestListViewModel.kt:86-99 | deletes a test made of the id and defaults; success sets the delete flag; failure records its message or "Failed to delete test"; the rows are unchanged |
| `TestList.TestListViewModel.ClearError` | app/src/main/java/com/bloodworktracker/ui/viewmodel/TestListViewModel.kt:101-103 | only the error is cleared |
| `TestList.TestListViewModel.ClearDeleteSuccess` | app/src/main/java/com/bloodworktracker/ui/viewmodel/TestListViewModel.kt:105-107 | only the delete flag is cleared |
| `AddTest.Selection` | app/src/main/java/com/bloodworktracker/ui/viewmodel/AddTestViewModel.kt:70-77 | a value sets that id's entry and null removes it; every other entry is unchanged |
| `AddTest.SelectionUndo` | app/src/main/java/com/bloodworktracker/ui/viewmodel/AddTestViewModel.kt:70-77 | picking a new value and then clearing it restores the selection |
| `AddTest.SelectionLastWins` | app/src/main/java/com/bloodworktracker/ui/viewmodel/AddTestViewModel.kt:70-77 | two updates of the same id equal the second alone |
| `AddTest.StatusOnSave` | app/src/main/java/com/bloodworktracker/ui/viewmodel/AddTestViewModel.kt:102-105 | NORMAL without a catalog entry, else the MALE classification |
| `AddTest.SavedResult` | app/src/main/java/com/bloodworktracker/ui/viewmodel/AddTestViewModel.kt:101-113 | the result saved for one picked value: new id, the inserted test id, that value, empty notes; status NORMAL without a catalog entry, else the MALE classification |
| `AddTest.BuildResults` | app/src/main/java/com/bloodworktracker/ui/viewmodel/AddTestViewModel.kt:101-113 | exactly one result per picked value, none twice: new id, the inserted test id, the value, its status on save, empty notes |
| `AddTest.AddTestViewModel.constructor` | app/src/main/java/com/bloodworktracker/ui/viewmodel/AddTestViewModel.kt:16-37 | the empty form dated `now`, followed by `loadBloodValueCategories` |
| `AddTest.AddTestViewModel.LoadBloodValueCategories` | app/src/main/java/com/bloodworktracker/ui/viewmodel/AddTestViewModel.kt:39-56 | shows the grouped catalog of the last emission; an exception records its message or "Failed to load blood values"; the form is unchanged |
| `AddTest.AddTestViewModel.ShowCategories` | app/src/main/java/com/bloodworktracker/ui/viewmodel/AddTestViewModel.kt:43-47 | one emission shows the grouped catalog and clears loading |
| `AddTest.AddTestViewModel.UpdateTestDate` | app/src/main/java/com/bloodworktracker/ui/viewmodel/AddTestViewModel.kt:58-60 | only the date changes |
| `AddTest.AddTestViewModel.UpdateLabName` | app/src/main/java/com/bloodworktracker/ui/viewmodel/AddTestViewModel.kt:62-64 | only the laboratory changes |
| `AddTest.AddTestViewModel.UpdateNotes` | app/src/main/java/com/bloodworktracker/ui/viewmodel/AddTestViewModel.kt:66-68 | only the notes change |
| `AddTest.AddTestViewModel.UpdateBloodValue` | app/src/main/java/com/bloodworktracker/ui/viewmodel/AddTestViewModel.kt:70-78 | the selection becomes `Selection(old, id, value)`; nothing else changes |
| `AddTest.AddTestViewModel.SaveTest` | app/src/main/java/com/bloodworktracker/ui/viewmodel/AddTestViewModel.kt:80-130 | with nothing picked, only the fixed German message; otherwise inserts the form's test and then exactly one result per picked value; saved iff both inserts succeed; failures record their message or "Failed to save test" |
| `AddTest.AddTestViewModel.ClearError` | app/src/main/java/com/bloodworktracker/ui/viewmodel/AddTestViewModel.kt:132-134 | only the error is cleared |
| `ValueCategories.LowerChar` | app/src/main/java/com/bloodworktracker/ui/viewmodel/ValueCategoriesViewModel.kt:71 | ASCII and Latin-1 capitals map to their small letters; everything else is unchanged |
| `ValueCategories.Lowercase` | app/src/main/java/com/bloodworktracker/ui/viewmodel/ValueCategoriesViewModel.kt:71 | lower-casing keeps the length and maps each character |
| `ValueCategories.LowercaseIdempotent` | app/src/main/java/com/bloodworktracker/ui/viewmodel/ValueCategoriesViewModel.kt:71-76 | lower-casing twice is lower-casing once |
| `ValueCategories.Contains` | app/src/main/java/com/bloodworktracker/ui/viewmodel/ValueCategoriesViewModel.kt:73-76 | the empty string is contained everywhere; a contained string is no longer than the text |
| `ValueCategories.ContainsOccurrence` | app/src/main/java/com/bloodworktracker/ui/viewmodel/ValueCategoriesViewModel.kt:73-76 | `contains` holds iff the string occurs at some position |
| `ValueCategories.FilterValues` | app/src/main/java/com/bloodworktracker/ui/viewmodel/ValueCategoriesViewModel.kt:70-78 | keeps a value iff the lower-cased query occurs in its lower-cased German or English name, abbreviation or category; an order-preserving subsequence |
| `ValueCategories.FilterValuesIgnoresCase` | app/src/main/java/com/bloodworktracker/ui/viewmodel/ValueCategoriesViewModel.kt:71 | a query and its lower-cased form select the same values |
| `ValueCategories.FilteredFor` | app/src/main/java/com/bloodworktracker/ui/viewmodel/ValueCategoriesViewModel.kt:58-62 | a blank query lists nothing; any other lists exactly the matching values |
| `ValueCategories.Flatten` | app/src/main/java/com/bloodworktracker/ui/viewmodel/ValueCategoriesViewModel.kt:39 | the flat list holds exactly the values of the categories |
| `ValueCategories.FlattenOne` | app/src/main/java/com/bloodworktracker/ui/viewmodel/ValueCategoriesViewModel.kt:39 | flattening one category gives its values |
| `ValueCategories.FlattenAppend` | app/src/main/java/com/bloodworktracker/ui/viewmodel/ValueCategoriesViewModel.kt:39 | flattening distributes over concatenation, so the flat list is the categories' values in category order, duplicates included |
| `ValueCategories.IsBlank` | app/src/main/java/com/bloodworktracker/ui/viewmodel/ValueCategoriesViewModel.kt:44 | a string is blank iff every character is whitespace; the empty string is blank |
| `ValueCategories.AllValuesAreCatalog` | app/src/main/java/com/bloodworktracker/ui/viewmodel/ValueCategoriesViewModel.kt:38-39 | the flat list of the grouped catalog holds exactly the catalog's values |
| `ValueCategories.Toggled` | app/src/main/java/com/bloodworktracker/ui/viewmodel/ValueCategoriesViewModel.kt:81-86 | the toggled category flips; every other category keeps its state |
| `ValueCategories.ToggleTwice` | app/src/main/java/com/bloodworktracker/ui/viewmodel/ValueCategoriesViewModel.kt:80-89 | toggling twice restores the expanded set |
| `ValueCategories.ValueCategoriesViewModel.constructor` | app/src/main/java/com/bloodworktracker/ui/viewmodel/ValueCategoriesViewModel.kt:13-32 | the default state followed by `loadCategories`; the screen invariant holds |
| `ValueCategories.ValueCategoriesViewModel.ShowCategories` | app/src/main/java/com/bloodworktracker/ui/viewmodel/ValueCategoriesViewModel.kt:38-46 | one emission replaces the categories, the flat list and the current query's matches |
| `ValueCategories.ValueCategoriesViewModel.LoadCategories` | app/src/main/java/com/bloodworktracker/ui/viewmodel/ValueCategoriesViewModel.kt:34-55 | shows the last emission; an exception records its message or "Failed to load blood values"; keeps the invariant that the flat list is the categories' values and the matches are the query's |
| `ValueCategories.ValueCategoriesViewModel.UpdateSearchQuery` | app/src/main/java/com/bloodworktracker/ui/viewmodel/ValueCategoriesViewModel.kt:57-68 | sets the query and its matches (none for a blank query); nothing else changes |
| `ValueCategories.ValueCategoriesViewModel.ToggleCategoryExpansion` | app/src/main/java/com/bloodworktracker/ui/viewmodel/ValueCategoriesViewModel.kt:80-89 | only the expanded set changes, to `Toggled(old, name)` |
| `ValueCategories.ValueCategoriesViewModel.ClearError` | app/src/main/java/com/bloodworktracker/ui/viewmodel/ValueCategoriesViewModel.kt:91-93 | only the error is cleared |
| `TestDetail.GroupResults` | app/src/main/java/com/bloodworktracker/ui/viewmodel/TestDetailViewModel.kt:35 | every result is in its category's group; every group is non-empty and holds only results of its category |
| `TestDetail.GroupResultsKeepsOrder` | app/src/main/java/com/bloodworktracker/ui/viewmodel/TestDetailViewModel.kt:35 | each group is exactly the results of its category, in their original order |
| `TestDetail.EditedResult` | app/src/main/java/com/bloodworktracker/ui/viewmodel/TestDetailViewModel.kt:57-69 | keeps id, test, blood value and notes; takes the new value; the status is recomputed for MALE, or kept when the catalog entry is missing |
| `TestDetail.EditUnchangedValue` | app/src/main/java/com/bloodworktracker/ui/viewmodel/TestDetailViewModel.kt:57-69 | writing back an unchanged, consistently classified value changes nothing |
| `TestDetail.EditTwice` | app/src/main/java/com/bloodworktracker/ui/viewmodel/TestDetailViewModel.kt:57-69 | editing twice equals editing once, to the second value |
| `TestDetail.TestDetailViewModel.constructor` | app/src/main/java/com/bloodworktracker/ui/viewmodel/TestDetailViewModel.kt:14-20 | no test, no groups, loading, no error, not deleting |
| `TestDetail.TestDetailViewModel.LoadTest` | app/src/main/java/com/bloodworktracker/ui/viewmodel/TestDetailViewModel.kt:29-49 | the test with that id (or none) and its joined results grouped by category; an exception records its message or "Failed to load test"; loading is cleared either way |
| `TestDetail.TestDetailViewModel.UpdateResult` | app/src/main/java/com/bloodworktracker/ui/viewmodel/TestDetailViewModel.kt:51-82 | nothing happens without a shown test; otherwise writes back the edited result, then reloads the shown test's id, or records the message or "Failed to update result" |
| `TestDetail.TestDetailViewModel.ClearError` | app/src/main/java/com/bloodworktracker/ui/viewmodel/TestDetailViewModel.kt:84-86 | only the error is cleared |

## Left out

- **The Room database.** This covers `BloodworkDatabase.kt` (the singleton and its seed data), the DAOs and `BloodworkApplication.kt`. Each query is replaced by the value it returns, passed as a parameter (a list, or a map from id to entry or test). The SQL itself and its `ORDER BY` clauses are not modelled.
- **Coroutines and Flow.** `viewModelScope.launch`, `collect` and `StateFlow` are modelled as one sequential call that receives the complete list of emissions and the final exception, if any. Interleavings of concurrent launches, and emissions after a later call, are not modelled. The intermediate states (for example `isLoading` while a flow is still open) are not observable, because each call runs to completion.
- **The pass-through repository functions.** These forward to a DAO and are not modelled: `getAllBloodValues`, `getAllCategories`, `searchBloodValues`, the test and result CRUD calls, and `getChartDataForBloodValue` (a fetch followed by a map over `calculateValueStatus`). Thin view models are not modelled either: `DashboardViewModel`, `SettingsViewModel`, `AnalysisViewModel`, `ValueDetailViewModel`, and the placeholder classes in `AllViewModels.kt`.
- **The Compose screens, navigation, theme and activity.** They are rendering. Their formatting helpers depend on Kotlin's number formatting and floating-point arithmetic.
- **Floating point.** `Double` is modelled as `real`. NaN, infinities and rounding are not represented. The core only compares values against constants and bounds.
- `ValueCategories.LowerChar`: lower-cases ASCII and Latin-1 capitals only (the German umlauts included). Kotlin's `lowercase()` also maps other Unicode capitals, and some of them to several characters.
- `ValueCategories.IsWhitespace`: lists Java's whitespace characters explicitly, as `isBlank` uses them.
- `BloodworkRepository.StrLess`: compares code points. Kotlin compares UTF-16 units, so the two orders can differ for characters outside the Basic Multilingual Plane.
- `AddTest.BuildResults`: fixes the set of saved results but not their order. `selectedValues` is a `LinkedHashMap` whose insertion order the model's `map` does not keep.
- `TestDetail.GroupResults`: `groupedResults` is a `LinkedHashMap`, and the model's `map` keeps which groups exist and their contents, not the order of the keys.
- **Exceptions from `getBloodValueById`.** Inside `saveTest` and `updateResult` the catalog lookup is modelled as total. Only the inserts and updates can fail.
- **`isDeleting`.** The detail screen's flag is never set by the source. The model only states that every operation keeps it.
- `TestList.TestListViewModel.DeleteTest`: the store receives a test with the caller's id; whether the delete matched a row is not reported by the source and not modelled.
