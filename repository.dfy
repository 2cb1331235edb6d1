/**
 * The logic of `BloodworkRepository`: classifying one value against its catalog entry,
 * grouping the catalog by category, and the constellation analysis of one test's results.
 * The Room store behind the repository is not modelled: what a query returns is a parameter.
 */
module BloodworkRepository {
  import opened Wrappers
  import opened Entities
  import opened DataModels
  import opened Collections

  // ------------------------------------------------------------------------------------------
  // Reference-range classification (`calculateValueStatus`)
  // ------------------------------------------------------------------------------------------

  /** A normal range taken from a catalog entry. */
  datatype Range = Range(min: real, max: real)

  /** A pair of optional bounds, usable only when both are present. */
  function Pair(min: Option<real>, max: Option<real>): (r: Option<Range>)
    ensures r.Some? <==> min.Some? && max.Some?
    ensures r.Some? ==> r.value == Range(min.value, max.value)
  {
    if min.Some? && max.Some? then Some(Range(min.value, max.value)) else None
  }

  /**
   * The range the classification uses, by priority: the complete male pair for a male
   * subject, the complete female pair for a female one, otherwise the complete
   * sex-independent pair; none when that is incomplete too.
   */
  function SelectRange(bv: BloodValue, gender: Gender): (r: Option<Range>)
    ensures gender == Male && Pair(bv.minMale, bv.maxMale).Some? ==> r == Pair(bv.minMale, bv.maxMale)
    ensures gender == Female && Pair(bv.minFemale, bv.maxFemale).Some? ==> r == Pair(bv.minFemale, bv.maxFemale)
    ensures !(gender == Male && Pair(bv.minMale, bv.maxMale).Some?) && !(gender == Female && Pair(bv.minFemale, bv.maxFemale).Some?)
      ==> r == Pair(bv.minNormal, bv.maxNormal)
  {
    if bv.minMale.Some? && bv.maxMale.Some? && gender == Male then Pair(bv.minMale, bv.maxMale)
    else if bv.minFemale.Some? && bv.maxFemale.Some? && gender == Female then Pair(bv.minFemale, bv.maxFemale)
    else Pair(bv.minNormal, bv.maxNormal)
  }

  /** `value` is under a threshold that is present. */
  predicate Below(value: real, bound: Option<real>)
  {
    bound.Some? && value < bound.value
  }

  /** `value` is over a threshold that is present. */
  predicate Above(value: real, bound: Option<real>)
  {
    bound.Some? && value > bound.value
  }

  /** `getBloodValueById`, on the catalog the store holds: the entry with that id, or null. */
  function GetBloodValueById(catalog: map<Long, BloodValue>, id: Long): (v: Option<BloodValue>)
    ensures v.Some? <==> id in catalog
    ensures v.Some? ==> v.value == catalog[id] && id in catalog
  {
    if id in catalog then Some(catalog[id]) else None
  }

  /**
   * `calculateValueStatus`: without a usable range the value is NORMAL; otherwise the
   * critical thresholds are checked first (low before high), then the range, with strict
   * comparisons so that a value on a bound is NORMAL.
   */
  function CalculateValueStatus(value: real, bv: BloodValue, gender: Gender): (s: ValueStatus)
    ensures SelectRange(bv, gender).None? ==> s == Normal
    ensures SelectRange(bv, gender).Some? && Below(value, bv.criticalLow) ==> s == CriticalLow
    ensures SelectRange(bv, gender).Some? && !Below(value, bv.criticalLow) && Above(value, bv.criticalHigh)
      ==> s == CriticalHigh
    ensures s == CriticalLow ==> Below(value, bv.criticalLow)
    ensures s == CriticalHigh ==> Above(value, bv.criticalHigh)
    ensures s == Low ==> SelectRange(bv, gender).Some? && value < SelectRange(bv, gender).value.min
    ensures s == High ==> SelectRange(bv, gender).Some? && value > SelectRange(bv, gender).value.max
    ensures s == Normal && SelectRange(bv, gender).Some?
      ==> SelectRange(bv, gender).value.min <= value <= SelectRange(bv, gender).value.max
    ensures SelectRange(bv, gender).Some? && !Below(value, bv.criticalLow) && !Above(value, bv.criticalHigh)
      ==> var range := SelectRange(bv, gender).value;
        && (value < range.min ==> s == Low)
        && (range.min <= value && value > range.max ==> s == High)
        && (range.min <= value <= range.max ==> s == Normal)
  {
    match SelectRange(bv, gender)
    case None => Normal
    case Some(range) =>
      if bv.criticalLow.Some? && value < bv.criticalLow.value then CriticalLow
      else if bv.criticalHigh.Some? && value > bv.criticalHigh.value then CriticalHigh
      else if value < range.min then Low
      else if value > range.max then High
      else Normal
  }

  /**
   * Without critical thresholds the status is decided by the selected range alone: LOW
   * exactly below it, HIGH exactly above it, NORMAL exactly inside it, bounds included.
   */
  lemma StatusWithoutCriticalThresholds(value: real, bv: BloodValue, gender: Gender, range: Range)
    requires bv.criticalLow.None? && bv.criticalHigh.None?
    requires SelectRange(bv, gender) == Some(range)
    requires range.min <= range.max
    ensures CalculateValueStatus(value, bv, gender) == Low <==> value < range.min
    ensures CalculateValueStatus(value, bv, gender) == High <==> value > range.max
    ensures CalculateValueStatus(value, bv, gender) == Normal <==> range.min <= value <= range.max
  {
  }

  /**
   * The sex-specific pairs only matter for their own sex: a complete male pair classifies a
   * male subject as that pair would if it were the sex-independent one, and likewise for
   * the female pair.
   */
  lemma SexSpecificRangeSelection(value: real, bv: BloodValue)
    ensures Pair(bv.minMale, bv.maxMale).Some? ==>
      CalculateValueStatus(value, bv, Male)
      == CalculateValueStatus(value, bv.(minNormal := bv.minMale, maxNormal := bv.maxMale), Other)
    ensures Pair(bv.minFemale, bv.maxFemale).Some? ==>
      CalculateValueStatus(value, bv, Female)
      == CalculateValueStatus(value, bv.(minNormal := bv.minFemale, maxNormal := bv.maxFemale), Other)
  {
  }

  /**
   * A subject of sex OTHER is always classified by the sex-independent pair, as if the
   * entry had no sex-specific ranges at all, whatever sex is then asked for.
   */
  lemma OtherUsesSexIndependentRange(value: real, bv: BloodValue, gender: Gender)
    ensures CalculateValueStatus(value, bv, Other)
      == CalculateValueStatus(value, bv.(minMale := None, maxMale := None, minFemale := None, maxFemale := None), gender)
  {
  }

  // ------------------------------------------------------------------------------------------
  // Catalog grouping (`getBloodValuesByCategory`)
  // ------------------------------------------------------------------------------------------

  function CategoryOf(v: BloodValue): string
  {
    v.category
  }

  function SortOrderOf(v: BloodValue): int
  {
    v.sortOrder as int
  }

  /**
   * Kotlin's `a.compareTo(b) < 0` on strings: the first differing character decides, and a
   * proper prefix comes first.
   */
  predicate StrLess(a: string, b: string)
  {
    if a == [] then b != []
    else if b == [] then false
    else if a[0] != b[0] then a[0] < b[0]
    else StrLess(a[1..], b[1..])
  }

  /**
   * The first `k` characters of `a` and `b` agree, and then `a` ends while `b` goes on, or
   * `a`'s next character is the smaller one.
   */
  ghost predicate SmallerAt(a: string, b: string, k: int)
  {
    && 0 <= k <= |a| && k <= |b|
    && (forall m :: 0 <= m < k ==> a[m] == b[m])
    && ((k == |a| && k < |b|) || (k < |a| && k < |b| && a[k] < b[k]))
  }

  /** `StrLess` is the lexicographic order: the strings first differ where `a` is smaller. */
  lemma {:induction false} StrLessLexicographic(a: string, b: string)
    ensures StrLess(a, b) <==> exists k :: SmallerAt(a, b, k)
  {
    if a == [] {
      if b != [] {
        assert SmallerAt(a, b, 0);
      }
    } else if b == [] {
    } else if a[0] != b[0] {
      if a[0] < b[0] {
        assert SmallerAt(a, b, 0);
      }
    } else {
      StrLessLexicographic(a[1..], b[1..]);
      if StrLess(a, b) {
        var k :| SmallerAt(a[1..], b[1..], k);
        assert forall m :: 1 <= m < k + 1 ==> a[m] == a[1..][m - 1] && b[m] == b[1..][m - 1];
        assert SmallerAt(a, b, k + 1);
      }
      if exists k :: SmallerAt(a, b, k) {
        var k :| SmallerAt(a, b, k);
        assert forall m :: 0 <= m < k - 1 ==> a[1..][m] == a[m + 1] && b[1..][m] == b[m + 1];
        assert SmallerAt(a[1..], b[1..], k - 1);
      }
    }
  }

  /** Any two strings are ordered one way, the other way, or equal. */
  lemma {:induction false} StrLessTrichotomy(a: string, b: string)
    ensures StrLess(a, b) || a == b || StrLess(b, a)
  {
    if a != [] && b != [] && a[0] == b[0] {
      StrLessTrichotomy(a[1..], b[1..]);
      assert a == [a[0]] + a[1..];
      assert b == [b[0]] + b[1..];
    }
  }

  /** The string order is asymmetric (so also irreflexive). */
  lemma {:induction false} StrLessAsymmetric(a: string, b: string)
    ensures !(StrLess(a, b) && StrLess(b, a))
  {
    if a != [] && b != [] && a[0] == b[0] {
      StrLessAsymmetric(a[1..], b[1..]);
    }
  }

  /** The string order is transitive. */
  lemma {:induction false} StrLessTransitive(a: string, b: string, c: string)
    requires StrLess(a, b) && StrLess(b, c)
    ensures StrLess(a, c)
  {
    if a != [] && b != [] && c != [] && a[0] == b[0] && b[0] == c[0] {
      StrLessTransitive(a[1..], b[1..], c[1..]);
    }
  }

  /** "Not after" is transitive too. */
  lemma StrNotAfterTransitive(a: string, b: string, c: string)
    requires !StrLess(b, a) && !StrLess(c, b)
    ensures !StrLess(c, a)
  {
    if StrLess(c, a) {
      StrLessTrichotomy(a, b);
      if StrLess(a, b) {
        StrLessTransitive(c, a, b);
      }
    }
  }

  /** The categories are in `sortedBy { it.name }` order. */
  ghost predicate SortedByName(cs: seq<BloodValueCategory>)
  {
    forall i, j :: 0 <= i < j < |cs| ==> !StrLess(cs[j].name, cs[i].name)
  }

  /** No two categories share a name. */
  ghost predicate NamesDistinct(cs: seq<BloodValueCategory>)
  {
    forall i, j :: 0 <= i < j < |cs| ==> cs[i].name != cs[j].name
  }

  /** Putting `c` first keeps the order when no category in `cs` sorts before it. */
  lemma InsertFrontSorted(c: BloodValueCategory, cs: seq<BloodValueCategory>)
    requires SortedByName(cs)
    requires cs == [] || !StrLess(cs[0].name, c.name)
    ensures SortedByName([c] + cs)
  {
    forall j | 0 <= j < |cs| ensures !StrLess(cs[j].name, c.name) {
      if j > 0 { StrNotAfterTransitive(c.name, cs[0].name, cs[j].name); }
    }
  }

  /** Keeping `cs[0]` first keeps the order when it sorts strictly before `c`. */
  lemma InsertAfterSorted(c: BloodValueCategory, cs: seq<BloodValueCategory>, t: seq<BloodValueCategory>)
    requires cs != [] && SortedByName(cs) && StrLess(cs[0].name, c.name)
    requires SortedByName(t) && multiset(t) == multiset(cs[1..]) + multiset{c}
    ensures SortedByName([cs[0]] + t)
    ensures multiset([cs[0]] + t) == multiset(cs) + multiset{c}
  {
    StrLessAsymmetric(cs[0].name, c.name);
    forall j | 0 <= j < |t| ensures !StrLess(t[j].name, cs[0].name) {
      assert t[j] in multiset(t);
      if t[j] != c {
        assert t[j] in cs[1..];
      }
    }
    assert cs == [cs[0]] + cs[1..];
  }

  /** One step of the stable insertion sort by name. */
  function InsertByName(c: BloodValueCategory, cs: seq<BloodValueCategory>): (r: seq<BloodValueCategory>)
    requires SortedByName(cs)
    ensures SortedByName(r)
    ensures multiset(r) == multiset(cs) + multiset{c}
  {
    if cs == [] || !StrLess(cs[0].name, c.name) then
      InsertFrontSorted(c, cs);
      [c] + cs
    else
      var t := InsertByName(c, cs[1..]);
      InsertAfterSorted(c, cs, t);
      [cs[0]] + t
  }

  /** Inserting a category whose name is new keeps the names distinct. */
  lemma {:induction false} InsertByNameDistinct(c: BloodValueCategory, cs: seq<BloodValueCategory>)
    requires SortedByName(cs) && NamesDistinct(cs)
    requires forall d :: d in cs ==> d.name != c.name
    ensures NamesDistinct(InsertByName(c, cs))
  {
    if cs != [] && StrLess(cs[0].name, c.name) {
      var t := InsertByName(c, cs[1..]);
      InsertByNameDistinct(c, cs[1..]);
      forall j | 0 <= j < |t| ensures t[j].name != cs[0].name {
        assert t[j] in multiset(t);
        if t[j] != c {
          var k :| 0 <= k < |cs[1..]| && cs[1..][k] == t[j];
          assert cs[k + 1] == t[j];
        }
      }
    }
  }

  /** `sortedBy { it.name }` on the categories: ordered by name and a permutation. */
  function SortByName(cs: seq<BloodValueCategory>): (r: seq<BloodValueCategory>)
    ensures SortedByName(r)
    ensures multiset(r) == multiset(cs)
  {
    if cs == [] then []
    else
      assert cs == [cs[0]] + cs[1..];
      InsertByName(cs[0], SortByName(cs[1..]))
  }

  /** Sorting categories with distinct names keeps them distinct. */
  lemma {:induction false} SortByNameDistinct(cs: seq<BloodValueCategory>)
    requires NamesDistinct(cs)
    ensures NamesDistinct(SortByName(cs))
  {
    if cs != [] {
      var t := SortByName(cs[1..]);
      SortByNameDistinct(cs[1..]);
      forall d | d in t ensures d.name != cs[0].name {
        assert d in multiset(t);
        var k :| 0 <= k < |cs[1..]| && cs[1..][k] == d;
        assert cs[k + 1] == d;
      }
      InsertByNameDistinct(cs[0], t);
    }
  }

  /** The group of one category: its values, stably sorted by `sortOrder`. */
  function CategoryGroup(values: seq<BloodValue>, name: string): (g: BloodValueCategory)
    ensures g.name == name
    ensures SortedByKey(g.values, SortOrderOf)
    ensures multiset(g.values) == multiset(FilterBy(values, CategoryOf, name))
  {
    BloodValueCategory(name, SortByKey(FilterBy(values, CategoryOf, name), SortOrderOf))
  }

  /**
   * A category's group holds exactly the values of that category, and values with the same
   * `sortOrder` keep their catalog order.
   */
  lemma CategoryGroupContents(values: seq<BloodValue>, name: string)
    ensures forall v :: v in CategoryGroup(values, name).values <==> v in values && v.category == name
    ensures forall k :: FilterBy(CategoryGroup(values, name).values, SortOrderOf, k)
                     == FilterBy(FilterBy(values, CategoryOf, name), SortOrderOf, k)
  {
    var f := FilterBy(values, CategoryOf, name);
    forall v ensures v in CategoryGroup(values, name).values <==> v in values && v.category == name {
      assert v in CategoryGroup(values, name).values <==> v in multiset(f);
    }
    forall k ensures FilterBy(CategoryGroup(values, name).values, SortOrderOf, k) == FilterBy(f, SortOrderOf, k) {
      SortByKeyStable(f, SortOrderOf, k);
    }
  }

  /**
   * `groupBy { it.category }` followed by `sortedBy { it.sortOrder }` inside each group,
   * with the groups in the order the `LinkedHashMap` keeps their keys.
   */
  function GroupByCategory(values: seq<BloodValue>): (u: seq<BloodValueCategory>)
    ensures |u| == |GroupKeys(values, CategoryOf)|
    ensures forall i :: 0 <= i < |u| ==> u[i].name == GroupKeys(values, CategoryOf)[i]
  {
    var byCategory := GroupBy(values, CategoryOf);
    var keys := GroupKeys(values, CategoryOf);
    seq(|keys|, i requires 0 <= i < |keys| =>
      assert keys[i] in keys;
      BloodValueCategory(keys[i], SortByKey(byCategory[keys[i]], SortOrderOf)))
  }

  /** One group per category key, in first-occurrence order, each that category's group. */
  lemma GroupByCategoryShape(values: seq<BloodValue>)
    ensures var u := GroupByCategory(values);
      && |u| == |GroupKeys(values, CategoryOf)|
      && forall i :: 0 <= i < |u| ==> u[i] == CategoryGroup(values, GroupKeys(values, CategoryOf)[i])
  {
    var byCategory := GroupBy(values, CategoryOf);
    var keys := GroupKeys(values, CategoryOf);
    var u := GroupByCategory(values);
    forall i | 0 <= i < |u| ensures u[i] == CategoryGroup(values, keys[i]) {
      assert keys[i] in keys;
      assert byCategory[keys[i]] == FilterBy(values, CategoryOf, keys[i]);
    }
  }

  /** `getBloodValuesByCategory`, applied to the catalog list the store emits. */
  function BloodValuesByCategory(values: seq<BloodValue>): (r: seq<BloodValueCategory>)
    ensures SortedByName(r)
    ensures multiset(r) == multiset(GroupByCategory(values))
  {
    SortByName(GroupByCategory(values))
  }

  /** Before the sort by name, the groups have distinct names. */
  lemma GroupNamesDistinct(values: seq<BloodValue>)
    ensures NamesDistinct(GroupByCategory(values))
  {
    GroupByCategoryShape(values);
    var keys := GroupKeys(values, CategoryOf);
    var u := GroupByCategory(values);
    assert forall i :: 0 <= i < |u| ==> u[i].name == keys[i];
  }

  /** Before the sort by name, every group is its category's group. */
  lemma GroupsAreCategoryGroups(values: seq<BloodValue>)
    ensures forall g :: g in GroupByCategory(values) ==> g == CategoryGroup(values, g.name)
  {
    GroupByCategoryShape(values);
    var u := GroupByCategory(values);
    forall g | g in u ensures g == CategoryGroup(values, g.name) {
      var i :| 0 <= i < |u| && u[i] == g;
    }
  }

  /** Before the sort by name, every category of the catalog has a group. */
  lemma GroupsCoverCatalog(values: seq<BloodValue>)
    ensures var u := GroupByCategory(values);
      forall v :: v in values ==> exists i :: 0 <= i < |u| && u[i].name == v.category
  {
    GroupByCategoryShape(values);
    var keys := GroupKeys(values, CategoryOf);
    var u := GroupByCategory(values);
    forall v | v in values ensures exists i :: 0 <= i < |u| && u[i].name == v.category {
      var n :| 0 <= n < |values| && values[n] == v;
      assert CategoryOf(values[n]) == v.category;
      assert v.category in keys;
      var k :| 0 <= k < |keys| && keys[k] == v.category;
      assert u[k] == CategoryGroup(values, keys[k]);
    }
  }

  /** After the sort by name, the groups are strictly ordered by name. */
  lemma CatalogNamesAscend(values: seq<BloodValue>)
    ensures var r := BloodValuesByCategory(values);
      forall i, j :: 0 <= i < j < |r| ==> StrLess(r[i].name, r[j].name)
  {
    var r := BloodValuesByCategory(values);
    GroupNamesDistinct(values);
    SortByNameDistinct(GroupByCategory(values));
    forall i, j | 0 <= i < j < |r| ensures StrLess(r[i].name, r[j].name) {
      StrLessTrichotomy(r[i].name, r[j].name);
    }
  }

  /** After the sort by name, every group is still its category's group. */
  lemma CatalogGroupsAreCategoryGroups(values: seq<BloodValue>)
    ensures var r := BloodValuesByCategory(values);
      forall i :: 0 <= i < |r| ==> r[i] == CategoryGroup(values, r[i].name)
  {
    var u := GroupByCategory(values);
    var r := BloodValuesByCategory(values);
    GroupsAreCategoryGroups(values);
    forall i | 0 <= i < |r| ensures r[i] in u {
      assert r[i] in multiset(r);
    }
  }

  /** A reordering of the groups keeps every name that some group carries. */
  lemma NamesSurviveReordering(u: seq<BloodValueCategory>, r: seq<BloodValueCategory>, names: set<string>)
    requires multiset(u) == multiset(r)
    requires forall n :: n in names ==> exists k :: 0 <= k < |u| && u[k].name == n
    ensures forall n :: n in names ==> exists i :: 0 <= i < |r| && r[i].name == n
  {
    forall n | n in names ensures exists i :: 0 <= i < |r| && r[i].name == n {
      var k :| 0 <= k < |u| && u[k].name == n;
      assert u[k] in multiset(u);
      var i :| 0 <= i < |r| && r[i] == u[k];
    }
  }

  /** After the sort by name, every category of the catalog still has a group. */
  lemma CatalogGroupsCover(values: seq<BloodValue>)
    ensures var r := BloodValuesByCategory(values);
      forall v :: v in values ==> exists i :: 0 <= i < |r| && r[i].name == v.category
  {
    var u := GroupByCategory(values);
    var r := BloodValuesByCategory(values);
    GroupsCoverCatalog(values);
    var names := set v | v in values :: v.category;
    NamesSurviveReordering(u, r, names);
    forall v | v in values ensures exists i :: 0 <= i < |r| && r[i].name == v.category {
      assert v.category in names;
    }
  }

  /** After the sort by name, every group is named after a category some catalog value carries. */
  lemma CatalogGroupsOccur(values: seq<BloodValue>)
    ensures var r := BloodValuesByCategory(values);
      forall i :: 0 <= i < |r| ==> exists n :: 0 <= n < |values| && values[n].category == r[i].name
  {
    var u := GroupByCategory(values);
    var r := BloodValuesByCategory(values);
    var keys := GroupKeys(values, CategoryOf);
    forall i | 0 <= i < |r| ensures exists n :: 0 <= n < |values| && values[n].category == r[i].name {
      assert r[i] in multiset(u) by {
        assert r[i] in multiset(r);
      }
      var k :| 0 <= k < |u| && u[k] == r[i];
      assert keys[k] in keys;
      var n :| 0 <= n < |values| && CategoryOf(values[n]) == keys[k];
    }
  }

  /**
   * The grouped catalog: the groups strictly ordered by name (so one per category), a group
   * for every category of the catalog and none for any other, each group that category's
   * values sorted by `sortOrder`.
   */
  lemma CatalogGrouping(values: seq<BloodValue>)
    ensures var r := BloodValuesByCategory(values);
      && (forall i, j :: 0 <= i < j < |r| ==> StrLess(r[i].name, r[j].name))
      && (forall i :: 0 <= i < |r| ==> r[i] == CategoryGroup(values, r[i].name))
      && (forall v :: v in values ==> exists i :: 0 <= i < |r| && r[i].name == v.category)
      && (forall i :: 0 <= i < |r| ==> exists n :: 0 <= n < |values| && values[n].category == r[i].name)
  {
    CatalogNamesAscend(values);
    CatalogGroupsAreCategoryGroups(values);
    CatalogGroupsCover(values);
    CatalogGroupsOccur(values);
  }

  // ------------------------------------------------------------------------------------------
  // Constellation analysis (`analyzeConstellation`)
  // ------------------------------------------------------------------------------------------

  function AbbreviationOf(r: BloodTestResultWithValue): string
  {
    r.abbreviation
  }

  const LiverTitle := "Erhöhte Leberwerte"
  const LiverDescription := "Mehrere Leberwerte sind erhöht. Dies kann auf eine Leberschädigung hinweisen."
  const LiverRecommendations: seq<string> := [
    "Alkoholkonsum reduzieren",
    "Medikamente überprüfen",
    "Weitere Leberuntersuchung erwägen",
    "Rücksprache mit dem Arzt"
  ]

  const DiabetesTitle := "Diabetesverdacht"
  const DiabetesDescription := "Die Blutzuckerwerte deuten auf einen möglichen Diabetes hin."
  const DiabetesRecommendations: seq<string> := [
    "Diabetologische Abklärung",
    "Ernährungsberatung",
    "Gewichtskontrolle",
    "Regelmäßige Blutzuckermessung"
  ]

  const KidneyTitle := "Eingeschränkte Nierenfunktion"
  const KidneyDescription := "Die Nierenwerte zeigen eine mögliche Funktionseinschränkung."
  const KidneyRecommendations: seq<string> := [
    "Nephrologische Kontrolle",
    "Blutdruckkontrolle",
    "Medikamente überprüfen",
    "Trinkmenge anpassen"
  ]

  const AnemiaTitle := "Anämie-Verdacht"
  const AnemiaDescription := "Die Blutwerte deuten auf eine mögliche Blutarmut hin."
  const AnemiaRecommendations: seq<string> := [
    "Eisenstatus prüfen",
    "Vitamin B12 und Folsäure bestimmen",
    "Stuhltest auf okkultes Blut",
    "Hämatologische Abklärung"
  ]

  // Liver rule

  predicate IsLiver(r: BloodTestResultWithValue) { r.category == "Leberwerte" }
  predicate IsElevated(r: BloodTestResultWithValue) { r.status == High || r.status == CriticalHigh }
  predicate IsCriticalHigh(r: BloodTestResultWithValue) { r.status == CriticalHigh }
  predicate IsElevatedLiver(r: BloodTestResultWithValue) { IsLiver(r) && IsElevated(r) }
  predicate IsCriticalLiver(r: BloodTestResultWithValue) { IsLiver(r) && IsCriticalHigh(r) }
  predicate IsCriticalElevatedLiver(r: BloodTestResultWithValue) { IsElevatedLiver(r) && IsCriticalHigh(r) }

  /** The liver rule: fires when a "Leberwerte" result is HIGH or CRITICAL_HIGH. */
  function LiverAnalysis(results: seq<BloodTestResultWithValue>): (a: Option<ConstellationAnalysis>)
    ensures results == [] ==> a.None?
    ensures a.Some? ==> a.value.title == LiverTitle && a.value.description == LiverDescription
    ensures a.Some? ==> a.value.recommendations == LiverRecommendations
  {
    var liverValues := Filter(results, IsLiver);
    if Any(liverValues, IsElevated) then
      var elevatedValues := Filter(liverValues, IsElevated);
      var severity :=
        if Any(elevatedValues, IsCriticalHigh) then Critical
        else if |elevatedValues| >= 3 then Warning
        else Info;
      Some(ConstellationAnalysis(LiverTitle, LiverDescription, severity,
        MapSeq(elevatedValues, AbbreviationOf), LiverRecommendations))
    else None
  }

  /**
   * The liver finding exists exactly when some liver result is elevated; it names the
   * elevated liver results in input order; it is CRITICAL exactly when one of them is
   * CRITICAL_HIGH, otherwise WARNING exactly when there are at least three, otherwise INFO.
   */
  lemma LiverRule(results: seq<BloodTestResultWithValue>)
    ensures var a := LiverAnalysis(results);
      var elevated := Filter(results, IsElevatedLiver);
      && (a.Some? <==> Any(results, IsElevatedLiver))
      && (a.Some? ==> a.value.affectedValues == MapSeq(elevated, AbbreviationOf))
      && (a.Some? ==> (a.value.severity == Critical <==> Any(results, IsCriticalLiver)))
      && (a.Some? ==> (a.value.severity == Warning <==> !Any(results, IsCriticalLiver) && |elevated| >= 3))
      && (a.Some? ==> a.value.recommendations == LiverRecommendations)
  {
    FilterFilter(results, IsLiver, IsElevated, IsElevatedLiver);
    AnyFilter(results, IsLiver, IsElevated, IsElevatedLiver);
    AnyFilter(results, IsElevatedLiver, IsCriticalHigh, IsCriticalElevatedLiver);
    assert Any(results, IsCriticalElevatedLiver) <==> Any(results, IsCriticalLiver);
  }

  // Diabetes rule

  predicate IsDiabetes(r: BloodTestResultWithValue) { r.category == "Diabetes" }
  predicate IsHighGlucoseCode(r: BloodTestResultWithValue) { r.abbreviation == "GLU" && r.value > 126.0 }
  predicate IsHighHbA1cCode(r: BloodTestResultWithValue) { r.abbreviation == "HbA1c" && r.value > 6.5 }
  predicate IsHighGlucose(r: BloodTestResultWithValue) { IsDiabetes(r) && IsHighGlucoseCode(r) }
  predicate IsHighHbA1c(r: BloodTestResultWithValue) { IsDiabetes(r) && IsHighHbA1cCode(r) }

  /** The diabetes rule: fires on a "Diabetes" glucose over 126.0 or HbA1c over 6.5. */
  function DiabetesAnalysis(results: seq<BloodTestResultWithValue>): (a: Option<ConstellationAnalysis>)
    ensures results == [] ==> a.None?
    ensures a.Some? ==> a.value.title == DiabetesTitle && a.value.description == DiabetesDescription
    ensures a.Some? ==> a.value.recommendations == DiabetesRecommendations
  {
    var diabetesValues := Filter(results, IsDiabetes);
    var highGlucose := Find(diabetesValues, IsHighGlucoseCode);
    var highHbA1c := Find(diabetesValues, IsHighHbA1cCode);
    if highGlucose.Some? || highHbA1c.Some? then
      var severity :=
        if highHbA1c.Some? && highHbA1c.value.value > 9.0 then Critical
        else if highGlucose.Some? && highGlucose.value.value > 200.0 then Warning
        else Info;
      Some(ConstellationAnalysis(DiabetesTitle, DiabetesDescription, severity,
        (if highGlucose.Some? then ["GLU"] else []) + (if highHbA1c.Some? then ["HbA1c"] else []),
        DiabetesRecommendations))
    else None
  }

  /**
   * The diabetes finding exists exactly when a diabetes result has GLU over 126.0 or HbA1c
   * over 6.5; it names "GLU" then "HbA1c", whichever matched; with the first match of each
   * code, it is CRITICAL exactly when the HbA1c match is over 9.0, otherwise WARNING exactly
   * when the glucose match is over 200.0, otherwise INFO.
   */
  lemma DiabetesRule(results: seq<BloodTestResultWithValue>)
    ensures var a := DiabetesAnalysis(results);
      var glucose := Find(results, IsHighGlucose);
      var hbA1c := Find(results, IsHighHbA1c);
      && (a.Some? <==> Any(results, IsHighGlucose) || Any(results, IsHighHbA1c))
      && (a.Some? ==> (a.value.affectedValues
            == (if Any(results, IsHighGlucose) then ["GLU"] else []) + (if Any(results, IsHighHbA1c) then ["HbA1c"] else [])))
      && (a.Some? ==> (a.value.severity == Critical <==> hbA1c.Some? && hbA1c.value.value > 9.0))
      && (a.Some? ==> (a.value.severity == Warning
            <==> !(hbA1c.Some? && hbA1c.value.value > 9.0) && glucose.Some? && glucose.value.value > 200.0))
      && (a.Some? ==> a.value.recommendations == DiabetesRecommendations)
  {
    FindFilter(results, IsDiabetes, IsHighGlucoseCode, IsHighGlucose);
    FindFilter(results, IsDiabetes, IsHighHbA1cCode, IsHighHbA1c);
  }

  // Kidney rule

  predicate IsKidney(r: BloodTestResultWithValue) { r.category == "Nierenwerte" }
  predicate IsAbnormalCreatinineCode(r: BloodTestResultWithValue) { r.abbreviation == "CREA" && r.status != Normal }
  predicate IsLowGfrCode(r: BloodTestResultWithValue) { r.abbreviation == "GFR" && r.value < 60.0 }
  predicate IsAbnormalCreatinine(r: BloodTestResultWithValue) { IsKidney(r) && IsAbnormalCreatinineCode(r) }
  predicate IsLowGfr(r: BloodTestResultWithValue) { IsKidney(r) && IsLowGfrCode(r) }

  /** The kidney rule: fires on a "Nierenwerte" creatinine that is not NORMAL or a GFR under 60.0. */
  function KidneyAnalysis(results: seq<BloodTestResultWithValue>): (a: Option<ConstellationAnalysis>)
    ensures results == [] ==> a.None?
    ensures a.Some? ==> a.value.title == KidneyTitle && a.value.description == KidneyDescription
    ensures a.Some? ==> a.value.recommendations == KidneyRecommendations
  {
    var kidneyValues := Filter(results, IsKidney);
    var highCreatinine := Find(kidneyValues, IsAbnormalCreatinineCode);
    var lowGfr := Find(kidneyValues, IsLowGfrCode);
    if highCreatinine.Some? || lowGfr.Some? then
      var severity :=
        if lowGfr.Some? && lowGfr.value.value < 30.0 then Critical
        else if lowGfr.Some? && lowGfr.value.value < 60.0 then Warning
        else Info;
      Some(ConstellationAnalysis(KidneyTitle, KidneyDescription, severity,
        (if highCreatinine.Some? then ["CREA"] else []) + (if lowGfr.Some? then ["GFR"] else []),
        KidneyRecommendations))
    else None
  }

  /**
   * The kidney finding exists exactly when a kidney result is a non-NORMAL CREA or a GFR
   * under 60.0; it names "CREA" then "GFR", whichever matched; with the first GFR match, it
   * is CRITICAL exactly when that GFR is under 30.0, WARNING exactly when it is not, and INFO
   * exactly when no GFR matched (the creatinine alone fired the rule).
   */
  lemma KidneyRule(results: seq<BloodTestResultWithValue>)
    ensures var a := KidneyAnalysis(results);
      var gfr := Find(results, IsLowGfr);
      && (a.Some? <==> Any(results, IsAbnormalCreatinine) || Any(results, IsLowGfr))
      && (a.Some? ==> (a.value.affectedValues
            == (if Any(results, IsAbnormalCreatinine) then ["CREA"] else []) + (if Any(results, IsLowGfr) then ["GFR"] else [])))
      && (a.Some? ==> (a.value.severity == Critical <==> gfr.Some? && gfr.value.value < 30.0))
      && (a.Some? ==> (a.value.severity == Warning <==> gfr.Some? && gfr.value.value >= 30.0))
      && (a.Some? ==> (a.value.severity == Info <==> gfr.None? && Any(results, IsAbnormalCreatinine)))
      && (a.Some? ==> a.value.recommendations == KidneyRecommendations)
  {
    FindFilter(results, IsKidney, IsAbnormalCreatinineCode, IsAbnormalCreatinine);
    FindFilter(results, IsKidney, IsLowGfrCode, IsLowGfr);
  }

  // Anemia rule

  predicate IsBloodCount(r: BloodTestResultWithValue) { r.category == "Kleines Blutbild" }
  predicate IsLowHbCode(r: BloodTestResultWithValue) { r.abbreviation == "Hb" && r.status == Low }
  predicate IsLowRbcCode(r: BloodTestResultWithValue) { r.abbreviation == "RBC" && r.status == Low }
  predicate IsLowHktCode(r: BloodTestResultWithValue) { r.abbreviation == "Hkt" && r.status == Low }
  predicate IsLowHb(r: BloodTestResultWithValue) { IsBloodCount(r) && IsLowHbCode(r) }
  predicate IsLowRbc(r: BloodTestResultWithValue) { IsBloodCount(r) && IsLowRbcCode(r) }
  predicate IsLowHkt(r: BloodTestResultWithValue) { IsBloodCount(r) && IsLowHktCode(r) }

  /** The anemia rule: fires on a LOW "Kleines Blutbild" Hb, or on LOW RBC and LOW Hkt together. */
  function AnemiaAnalysis(results: seq<BloodTestResultWithValue>): (a: Option<ConstellationAnalysis>)
    ensures results == [] ==> a.None?
    ensures a.Some? ==> a.value.title == AnemiaTitle && a.value.description == AnemiaDescription
    ensures a.Some? ==> a.value.recommendations == AnemiaRecommendations
  {
    var bloodCount := Filter(results, IsBloodCount);
    var lowHb := Find(bloodCount, IsLowHbCode);
    var lowRbc := Find(bloodCount, IsLowRbcCode);
    var lowHkt := Find(bloodCount, IsLowHktCode);
    if lowHb.Some? || (lowRbc.Some? && lowHkt.Some?) then
      Some(ConstellationAnalysis(AnemiaTitle, AnemiaDescription, Warning,
        (if lowHb.Some? then ["Hb"] else []) + (if lowRbc.Some? then ["RBC"] else []) + (if lowHkt.Some? then ["Hkt"] else []),
        AnemiaRecommendations))
    else None
  }

  /**
   * The anemia finding exists exactly when the blood count has a LOW Hb, or both a LOW RBC
   * and a LOW Hkt; it is always a WARNING and names the LOW ones among "Hb", "RBC", "Hkt" in
   * that order. A LOW RBC on its own fires nothing.
   */
  lemma AnemiaRule(results: seq<BloodTestResultWithValue>)
    ensures var a := AnemiaAnalysis(results);
      && (a.Some? <==> Any(results, IsLowHb) || (Any(results, IsLowRbc) && Any(results, IsLowHkt)))
      && (a.Some? ==> a.value.severity == Warning)
      && (a.Some? ==> (a.value.affectedValues
            == (if Any(results, IsLowHb) then ["Hb"] else [])
             + (if Any(results, IsLowRbc) then ["RBC"] else [])
             + (if Any(results, IsLowHkt) then ["Hkt"] else [])))
      && (a.Some? ==> a.value.recommendations == AnemiaRecommendations)
  {
    FindFilter(results, IsBloodCount, IsLowHbCode, IsLowHb);
    FindFilter(results, IsBloodCount, IsLowRbcCode, IsLowRbc);
    FindFilter(results, IsBloodCount, IsLowHktCode, IsLowHkt);
  }

  /** `analyses.add(...)` inside a rule's `if`: appends the rule's finding when the rule fires. */
  method AddFinding(analyses: seq<ConstellationAnalysis>, finding: Option<ConstellationAnalysis>)
    returns (r: seq<ConstellationAnalysis>)
    ensures r == analyses + finding.ToSeq()
    ensures forall a :: a in r <==> a in analyses || (finding.Some? && a == finding.value)
  {
    r := analyses;
    if finding.Some? {
      r := r + [finding.value];
    }
  }

  /** Every rule recommends four things. */
  lemma FourRecommendations()
    ensures |LiverRecommendations| == |DiabetesRecommendations| == 4
    ensures |KidneyRecommendations| == |AnemiaRecommendations| == 4
  {
  }

  /**
   * `analyzeConstellation`, given the joined results the store returns for the test: the
   * four rules run in order and each appends at most one finding.
   */
  method AnalyzeConstellation(results: seq<BloodTestResultWithValue>) returns (analyses: seq<ConstellationAnalysis>)
    ensures analyses == LiverAnalysis(results).ToSeq() + DiabetesAnalysis(results).ToSeq()
                      + KidneyAnalysis(results).ToSeq() + AnemiaAnalysis(results).ToSeq()
    ensures |analyses| <= 4
    ensures results == [] ==> analyses == []
    ensures forall a :: a in analyses ==> |a.recommendations| == 4
  {
    var liver, diabetes, kidney, anemia :=
      LiverAnalysis(results), DiabetesAnalysis(results), KidneyAnalysis(results), AnemiaAnalysis(results);
    analyses := [];
    analyses := AddFinding(analyses, liver);
    AppendToEmpty(liver.ToSeq());
    analyses := AddFinding(analyses, diabetes);
    analyses := AddFinding(analyses, kidney);
    analyses := AddFinding(analyses, anemia);
    FourRecommendations();
  }

  // ------------------------------------------------------------------------------------------
  // Worked examples
  // ------------------------------------------------------------------------------------------

  /** A joined result with only the fields the rules read. */
  function Measurement(category: string, code: string, value: real, status: ValueStatus): BloodTestResultWithValue
  {
    BloodTestResultWithValue(0, 0, 0, value, status, "", "", "", code, "", category,
      None, None, None, None, None, None, None, None)
  }

  /** Three HIGH liver values and no CRITICAL_HIGH one give a WARNING naming all three. */
  lemma LiverExample()
    ensures var a := LiverAnalysis([Measurement("Leberwerte", "ALT", 80.0, High),
                                    Measurement("Leberwerte", "AST", 70.0, High),
                                    Measurement("Leberwerte", "GGT", 90.0, High)]);
      a.Some? && a.value.severity == Warning && a.value.affectedValues == ["ALT", "AST", "GGT"]
  {
    var alt, ast, ggt := Measurement("Leberwerte", "ALT", 80.0, High),
      Measurement("Leberwerte", "AST", 70.0, High), Measurement("Leberwerte", "GGT", 90.0, High);
    var rs := [alt, ast, ggt];
    assert rs[1..] == [ast, ggt] && rs[1..][1..] == [ggt] && rs[1..][1..][1..] == [];
    assert IsElevatedLiver(alt) && IsElevatedLiver(ast) && IsElevatedLiver(ggt);
    assert Filter([ggt], IsElevatedLiver) == [ggt];
    assert Filter([ast, ggt], IsElevatedLiver) == [ast, ggt];
    assert Filter(rs, IsElevatedLiver) == rs;
    assert !Any(rs, IsCriticalLiver);
    MapSeqThree(alt, ast, ggt, AbbreviationOf);
    LiverRule(rs);
  }

  /** Glucose 130 alone: INFO; glucose 210 alone: WARNING; HbA1c 9.5 alone: CRITICAL. */
  lemma DiabetesExamples()
    ensures var a := DiabetesAnalysis([Measurement("Diabetes", "GLU", 130.0, High)]);
      a.Some? && a.value.severity == Info && a.value.affectedValues == ["GLU"]
    ensures var a := DiabetesAnalysis([Measurement("Diabetes", "GLU", 210.0, High)]);
      a.Some? && a.value.severity == Warning
    ensures var a := DiabetesAnalysis([Measurement("Diabetes", "HbA1c", 9.5, CriticalHigh)]);
      a.Some? && a.value.severity == Critical && a.value.affectedValues == ["HbA1c"]
  {
  }

  /** A LOW Hb fires the anemia rule on its own, naming only "Hb". */
  lemma AnemiaLowHbExample()
    ensures var a := AnemiaAnalysis([Measurement("Kleines Blutbild", "Hb", 11.0, Low),
                                     Measurement("Kleines Blutbild", "RBC", 4.5, Normal)]);
      a.Some? && a.value.severity == Warning && a.value.affectedValues == ["Hb"]
  {
    var hb, rbc := Measurement("Kleines Blutbild", "Hb", 11.0, Low), Measurement("Kleines Blutbild", "RBC", 4.5, Normal);
    var rs := [hb, rbc];
    assert IsLowHb(rs[0]);
    assert !Any(rs, IsLowRbc) && !Any(rs, IsLowHkt) by {
      assert !IsLowRbc(rs[0]) && !IsLowRbc(rs[1]) && !IsLowHkt(rs[0]) && !IsLowHkt(rs[1]);
    }
    AnemiaRule(rs);
  }

  /** A LOW RBC together with a LOW Hkt fires the anemia rule, naming both. */
  lemma AnemiaLowRbcHktExample()
    ensures var a := AnemiaAnalysis([Measurement("Kleines Blutbild", "RBC", 3.9, Low),
                                     Measurement("Kleines Blutbild", "Hkt", 35.0, Low)]);
      a.Some? && a.value.affectedValues == ["RBC", "Hkt"]
  {
    var rbc, hkt := Measurement("Kleines Blutbild", "RBC", 3.9, Low), Measurement("Kleines Blutbild", "Hkt", 35.0, Low);
    var rs := [rbc, hkt];
    assert Any(rs, IsLowRbc) && Any(rs, IsLowHkt) by {
      assert IsLowRbc(rs[0]) && IsLowHkt(rs[1]);
    }
    assert !Any(rs, IsLowHb) by {
      assert !IsLowHb(rs[0]) && !IsLowHb(rs[1]);
    }
    AnemiaRule(rs);
    AppendToEmpty(["RBC"]);
  }

  /** A LOW RBC without a LOW Hkt or Hb fires nothing. */
  lemma AnemiaLowRbcAloneExample()
    ensures AnemiaAnalysis([Measurement("Kleines Blutbild", "Hb", 14.0, Normal),
                            Measurement("Kleines Blutbild", "RBC", 3.9, Low)]).None?
  {
    var hb, rbc := Measurement("Kleines Blutbild", "Hb", 14.0, Normal), Measurement("Kleines Blutbild", "RBC", 3.9, Low);
    var rs := [hb, rbc];
    assert !Any(rs, IsLowHb) && !Any(rs, IsLowHkt) by {
      assert !IsLowHb(rs[0]) && !IsLowHb(rs[1]) && !IsLowHkt(rs[0]) && !IsLowHkt(rs[1]);
    }
    AnemiaRule(rs);
  }

  /**
   * A value far above its critical-high threshold is still NORMAL when the entry has no
   * usable range: the range check comes first.
   */
  lemma CriticalNeedsRange(bv: BloodValue, gender: Gender, value: real)
    requires bv.minNormal.None? && bv.minMale.None? && bv.minFemale.None?
    ensures CalculateValueStatus(value, bv, gender) == Normal
  {
  }
}
