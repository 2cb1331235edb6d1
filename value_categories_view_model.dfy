/**
 * `ValueCategoriesViewModel`: the catalog screen. It shows the grouped catalog, the flat
 * list of all values, the values matching a case-insensitive search, and which categories
 * are expanded.
 */
module ValueCategories {
  import opened Wrappers
  import opened Entities
  import opened DataModels
  import opened Collections
  import opened BloodworkRepository

  // ------------------------------------------------------------------------------------------
  // Text matching
  // ------------------------------------------------------------------------------------------

  /** `Char.lowercaseChar()` on ASCII and Latin-1 capitals (the German umlauts included). */
  function LowerChar(c: char): (d: char)
    ensures 'A' <= c <= 'Z' ==> d as int == c as int + 32
    ensures '\U{00C0}' <= c <= '\U{00DE}' && c != '\U{00D7}' ==> d as int == c as int + 32
    ensures !('A' <= c <= 'Z') && !('\U{00C0}' <= c <= '\U{00DE}' && c != '\U{00D7}') ==> d == c
  {
    if 'A' <= c <= 'Z' || ('\U{00C0}' <= c <= '\U{00DE}' && c != '\U{00D7}') then (c as int + 32) as char else c
  }

  /** `String.lowercase()`, character by character. */
  function Lowercase(s: string): (r: string)
    ensures |r| == |s|
    ensures forall i :: 0 <= i < |s| ==> r[i] == LowerChar(s[i])
  {
    if s == [] then [] else [LowerChar(s[0])] + Lowercase(s[1..])
  }

  /** Lower-casing twice changes nothing more. */
  lemma LowercaseIdempotent(s: string)
    ensures Lowercase(Lowercase(s)) == Lowercase(s)
  {
    var once := Lowercase(s);
    var twice := Lowercase(once);
    assert forall i :: 0 <= i < |s| ==> twice[i] == once[i];
  }

  /** `Char.isWhitespace()`: Java's whitespace characters and its space separators. */
  predicate IsWhitespace(c: char)
  {
    c == '\t' || c == '\n' || c == '\U{000B}' || c == '\U{000C}' || c == '\r'
    || ('\U{001C}' <= c <= '\U{001F}') || c == ' ' || c == '\U{00A0}' || c == '\U{1680}'
    || ('\U{2000}' <= c <= '\U{200A}') || c == '\U{2028}' || c == '\U{2029}' || c == '\U{202F}'
    || c == '\U{205F}' || c == '\U{3000}'
  }

  /** `String.isBlank()`: empty or only whitespace. */
  predicate IsBlank(s: string): (b: bool)
    ensures s == [] ==> b
    ensures b <==> forall c :: c in s ==> IsWhitespace(c)
  {
    forall i :: 0 <= i < |s| ==> IsWhitespace(s[i])
  }

  /** `String.startsWith(prefix)`. */
  predicate StartsWith(s: string, prefix: string)
  {
    |prefix| <= |s| && s[..|prefix|] == prefix
  }

  /** `String.contains(other)`: `other` starts at some position of `s`. */
  function Contains(s: string, other: string): (b: bool)
    ensures other == [] ==> b
    ensures b ==> |other| <= |s|
  {
    StartsWith(s, other) || (s != [] && Contains(s[1..], other))
  }

  /** `other` occurs in `s` starting at position `i`. */
  predicate OccursAt(s: string, other: string, i: int)
  {
    0 <= i && i + |other| <= |s| && s[i..i + |other|] == other
  }

  /** `Contains` holds exactly when `other` occurs somewhere in `s`. */
  lemma {:induction false} ContainsOccurrence(s: string, other: string)
    ensures Contains(s, other) <==> exists i :: OccursAt(s, other, i)
  {
    if StartsWith(s, other) {
      assert OccursAt(s, other, 0);
    } else if s != [] {
      ContainsOccurrence(s[1..], other);
      if Contains(s[1..], other) {
        var i :| OccursAt(s[1..], other, i);
        assert OccursAt(s, other, i + 1);
      }
      if exists i :: OccursAt(s, other, i) {
        var i :| OccursAt(s, other, i);
        assert i > 0;
        assert OccursAt(s[1..], other, i - 1);
      }
    } else {
      assert forall i :: !OccursAt(s, other, i);
    }
  }

  /** The search predicate of `filterValues`, with the search term already lower-cased. */
  predicate MatchesTerm(v: BloodValue, term: string)
  {
    Contains(Lowercase(v.nameDe), term) || Contains(Lowercase(v.nameEn), term)
    || Contains(Lowercase(v.abbreviation), term) || Contains(Lowercase(v.category), term)
  }

  /**
   * `filterValues`: the values whose German or English name, abbreviation or category
   * contains the query, ignoring case, in catalog order.
   */
  function FilterValues(query: string, values: seq<BloodValue>): (r: seq<BloodValue>)
    ensures forall v :: v in r <==> v in values && MatchesTerm(v, Lowercase(query))
    ensures IsSubsequence(r, values)
  {
    var term := Lowercase(query);
    Filter(values, v => MatchesTerm(v, term))
  }

  /** The search ignores case: a query and its lower-cased form select the same values. */
  lemma FilterValuesIgnoresCase(query: string, values: seq<BloodValue>)
    ensures FilterValues(query, values) == FilterValues(Lowercase(query), values)
  {
    LowercaseIdempotent(query);
  }

  /** What the screen lists for a query: nothing for a blank query, else the matches. */
  function FilteredFor(query: string, values: seq<BloodValue>): (r: seq<BloodValue>)
    ensures IsBlank(query) ==> r == []
    ensures !IsBlank(query) ==> forall v :: v in r <==> v in values && MatchesTerm(v, Lowercase(query))
  {
    if IsBlank(query) then [] else FilterValues(query, values)
  }

  // ------------------------------------------------------------------------------------------
  // Catalog views
  // ------------------------------------------------------------------------------------------

  /** `categories.flatMap { it.values }`. */
  function Flatten(categories: seq<BloodValueCategory>): (r: seq<BloodValue>)
    ensures forall v :: v in r <==> exists i :: 0 <= i < |categories| && v in categories[i].values
  {
    if categories == [] then []
    else
      var rest := Flatten(categories[1..]);
      assert forall v :: v in rest <==> exists i :: 1 <= i < |categories| && v in categories[i].values by {
        forall v | v in rest ensures exists i :: 1 <= i < |categories| && v in categories[i].values {
          var i :| 0 <= i < |categories[1..]| && v in categories[1..][i].values;
          assert categories[i + 1] == categories[1..][i];
        }
        forall v | exists i :: 1 <= i < |categories| && v in categories[i].values ensures v in rest {
          var i :| 1 <= i < |categories| && v in categories[i].values;
          assert categories[1..][i - 1] == categories[i];
        }
      }
      categories[0].values + rest
  }

  /** One category flattens to its values. */
  lemma FlattenOne(c: BloodValueCategory)
    ensures Flatten([c]) == c.values
  {
    assert [c][1..] == [];
  }

  /** Flattening a concatenation concatenates the flattened parts, in category order. */
  lemma {:induction false} FlattenAppend(a: seq<BloodValueCategory>, b: seq<BloodValueCategory>)
    ensures Flatten(a + b) == Flatten(a) + Flatten(b)
  {
    if a == [] {
      assert a + b == b;
    } else {
      FlattenAppend(a[1..], b);
      assert (a + b)[0] == a[0];
      assert (a + b)[1..] == a[1..] + b;
      AppendAssociative(a[0].values, Flatten(a[1..]), Flatten(b));
    }
  }

  /** The flat list of the grouped catalog holds exactly the catalog's values. */
  lemma AllValuesAreCatalog(values: seq<BloodValue>)
    ensures forall v :: v in Flatten(BloodValuesByCategory(values)) <==> v in values
  {
    var r := BloodValuesByCategory(values);
    CatalogGroupsAreCategoryGroups(values);
    CatalogGroupsCover(values);
    forall v ensures v in Flatten(r) <==> v in values {
      if v in values {
        var i :| 0 <= i < |r| && r[i].name == v.category;
        CategoryGroupContents(values, r[i].name);
      }
      if v in Flatten(r) {
        var i :| 0 <= i < |r| && v in r[i].values;
        CategoryGroupContents(values, r[i].name);
      }
    }
  }

  /** The expanded set after toggling `name`: it flips, nothing else changes. */
  function Toggled(expanded: set<string>, name: string): (r: set<string>)
    ensures name in r <==> name !in expanded
    ensures forall other :: other != name ==> (other in r <==> other in expanded)
  {
    if name in expanded then expanded - {name} else expanded + {name}
  }

  /** Toggling the same category twice restores the expanded set. */
  lemma ToggleTwice(expanded: set<string>, name: string)
    ensures Toggled(Toggled(expanded, name), name) == expanded
  {
  }

  // ------------------------------------------------------------------------------------------
  // The screen state
  // ------------------------------------------------------------------------------------------

  /** The screen state (`ValueCategoriesUiState`) and the operations that change it. */
  class ValueCategoriesViewModel {
    var categories: seq<BloodValueCategory>
    var allValues: seq<BloodValue>
    var filteredValues: seq<BloodValue>
    var searchQuery: string
    var expandedCategories: set<string>
    var isLoading: bool
    var error: Option<string>

    /** The flat list is the shown categories' values, and the matches are those of the current query. */
    ghost predicate Valid()
      reads this
    {
      allValues == Flatten(categories) && filteredValues == FilteredFor(searchQuery, allValues)
    }

    /** The initial state (empty, loading), then `init`'s `loadCategories` with what the store delivers. */
    constructor(emissions: seq<seq<BloodValue>>, failure: Option<Option<string>>)
      ensures Valid()
      ensures categories == (if emissions == [] then [] else BloodValuesByCategory(emissions[|emissions| - 1]))
      ensures searchQuery == "" && filteredValues == [] && expandedCategories == {}
      ensures isLoading == (emissions == [] && failure.None?)
      ensures error == (if failure.Some? then Some(failure.value.GetOr("Failed to load blood values")) else None)
    {
      categories := [];
      allValues := [];
      filteredValues := [];
      searchQuery := "";
      expandedCategories := {};
      isLoading := true;
      error := None;
      new;
      LoadCategories(emissions, failure);
    }

    /**
     * The collector of `loadCategories`: one emission of the grouped catalog replaces the
     * categories, the flat list and the matches of the current query.
     */
    method ShowCategories(values: seq<BloodValue>)
      modifies this
      ensures Valid()
      ensures categories == BloodValuesByCategory(values) && !isLoading
      ensures searchQuery == old(searchQuery) && expandedCategories == old(expandedCategories)
      ensures error == old(error)
    {
      var shown := BloodValuesByCategory(values);
      var flat := Flatten(shown);
      categories := shown;
      allValues := flat;
      filteredValues := if IsBlank(searchQuery) then [] else FilterValues(searchQuery, flat);
      isLoading := false;
    }

    /**
     * `loadCategories`: set the loading flag, then show every emission and clear the flag;
     * an exception records its message (or "Failed to load blood values") and clears the
     * flag too.
     */
    method LoadCategories(emissions: seq<seq<BloodValue>>, failure: Option<Option<string>>)
      requires Valid()
      modifies this
      ensures Valid()
      ensures categories == (if emissions == [] then old(categories) else BloodValuesByCategory(emissions[|emissions| - 1]))
      ensures isLoading == (emissions == [] && failure.None?)
      ensures error == (if failure.Some? then Some(failure.value.GetOr("Failed to load blood values")) else old(error))
      ensures searchQuery == old(searchQuery) && expandedCategories == old(expandedCategories)
      ensures emissions == [] ==> allValues == old(allValues) && filteredValues == old(filteredValues)
    {
      isLoading := true;
      for i := 0 to |emissions|
        invariant Valid()
        invariant categories == (if i == 0 then old(categories) else BloodValuesByCategory(emissions[i - 1]))
        invariant isLoading == (i == 0)
        invariant error == old(error)
        invariant searchQuery == old(searchQuery) && expandedCategories == old(expandedCategories)
        invariant i == 0 ==> allValues == old(allValues) && filteredValues == old(filteredValues)
      {
        ShowCategories(emissions[i]);
      }
      if failure.Some? {
        error := Some(failure.value.GetOr("Failed to load blood values"));
        isLoading := false;
      }
    }

    /** `updateSearchQuery`: the new query and its matches among all values. */
    method UpdateSearchQuery(query: string)
      requires Valid()
      modifies this
      ensures Valid()
      ensures searchQuery == query
      ensures categories == old(categories) && allValues == old(allValues)
      ensures expandedCategories == old(expandedCategories) && isLoading == old(isLoading) && error == old(error)
    {
      var matches := if IsBlank(query) then [] else FilterValues(query, allValues);
      searchQuery := query;
      filteredValues := matches;
    }

    /** `toggleCategoryExpansion`: only that category's expansion flips. */
    method ToggleCategoryExpansion(categoryName: string)
      requires Valid()
      modifies this
      ensures Valid()
      ensures expandedCategories == Toggled(old(expandedCategories), categoryName)
      ensures categories == old(categories) && allValues == old(allValues) && filteredValues == old(filteredValues)
      ensures searchQuery == old(searchQuery) && isLoading == old(isLoading) && error == old(error)
    {
      expandedCategories := Toggled(expandedCategories, categoryName);
    }

    /** `clearError`: only the error goes. */
    method ClearError()
      requires Valid()
      modifies this
      ensures Valid()
      ensures error.None?
      ensures categories == old(categories) && allValues == old(allValues) && filteredValues == old(filteredValues)
      ensures searchQuery == old(searchQuery) && expandedCategories == old(expandedCategories)
      ensures isLoading == old(isLoading)
    {
      error := None;
    }
  }
}
