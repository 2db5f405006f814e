/**
 * The filter bar of the recipe list (client/src/components/recipe/SearchFilters.jsx
 * lines 4-64 and 109). Each handler builds one new filters value, stores it
 * and reports that same value to the page; a handler here returns it.
 */
module SearchFilters {
  import opened Text
  import RecipeSchema
  import RecipeQuery

  const Categories: seq<string> :=
    ["Appetizer", "Main Course", "Dessert", "Beverage", "Soup", "Salad", "Side Dish", "Breakfast"]

  const Difficulties: seq<string> := ["Easy", "Medium", "Hard"]

  /** The values of the sort select, each a field and a direction joined by `-`. */
  const SortOptionValues: seq<string> :=
    ["createdAt-desc", "createdAt-asc", "averageRating-desc", "title-asc", "title-desc"]

  /** The selects offer exactly the values the schema's enums accept, in the same order. */
  lemma ChoicesMatchSchema()
    ensures Categories == RecipeSchema.CategoryNames
    ensures Difficulties == RecipeSchema.DifficultyNames
  {
  }

  datatype Filters = Filters(search: string, category: string, difficulty: string, sortBy: string, sortOrder: string)

  /** The keys of the filters object. */
  datatype FilterKey = Search | Category | Difficulty | SortBy | SortOrder

  function Get(f: Filters, k: FilterKey): string {
    match k
    case Search => f.search
    case Category => f.category
    case Difficulty => f.difficulty
    case SortBy => f.sortBy
    case SortOrder => f.sortOrder
  }

  /** The component's initial state: no search or filter, newest first. */
  function InitialFilters(): Filters {
    Filters("", "", "", "createdAt", "desc")
  }

  /** `handleSearchChange`: the search text is replaced and nothing else changes. */
  function HandleSearchChange(f: Filters, search: string): (r: Filters)
    ensures Get(r, Search) == search
    ensures forall k :: k != Search ==> Get(r, k) == Get(f, k)
  {
    f.(search := search)
  }

  /** `handleFilterChange`: `{ ...filters, [key]: value }`. */
  function HandleFilterChange(f: Filters, key: FilterKey, value: string): (r: Filters)
    ensures Get(r, key) == value
    ensures forall k :: k != key ==> Get(r, k) == Get(f, k)
  {
    match key
    case Search => f.(search := value)
    case Category => f.(category := value)
    case Difficulty => f.(difficulty := value)
    case SortBy => f.(sortBy := value)
    case SortOrder => f.(sortOrder := value)
  }

  /** The value the sort select shows: `${sortBy}-${sortOrder}`. */
  function SortValue(f: Filters): string {
    f.sortBy + "-" + f.sortOrder
  }

  /**
   * `handleSortChange`: `const [sortBy, sortOrder] = value.split('-')`.
   * Both names are bound only when the value holds a `-`; pieces after the
   * second are dropped.
   */
  function HandleSortChange(f: Filters, value: string): (r: Filters)
    requires |Split(value, '-')| >= 2
    ensures forall k :: k != SortBy && k != SortOrder ==> Get(r, k) == Get(f, k)
    ensures '-' !in r.sortBy && '-' !in r.sortOrder
  {
    var parts := Split(value, '-');
    f.(sortBy := parts[0], sortOrder := parts[1])
  }

  /** `clearFilters`: whatever the state, back to exactly the initial filters. */
  function ClearFilters(f: Filters): (r: Filters)
    ensures r == InitialFilters()
  {
    Filters("", "", "", "createdAt", "desc")
  }

  /** Choosing the value the select already shows changes nothing, for a field and direction without `-`. */
  lemma SortChangeOfShownValue(f: Filters)
    requires '-' !in f.sortBy && '-' !in f.sortOrder
    ensures |Split(SortValue(f), '-')| >= 2
    ensures HandleSortChange(f, SortValue(f)) == f
  {
    SplitAtFirstSeparator(f.sortBy, f.sortOrder, '-');
    SplitWithoutSeparator(f.sortOrder, '-');
  }

  /** Conversely, a value with exactly one `-` is what the select shows after choosing it. */
  lemma SortValueOfChoice(f: Filters, value: string)
    requires |Split(value, '-')| == 2
    ensures SortValue(HandleSortChange(f, value)) == value
  {
    var parts := Split(value, '-');
    assert Join(parts, '-') == parts[0] + ['-'] + parts[1];
  }

  /** A field and a direction without `-`, joined by one, split back into the two. */
  lemma SortChoiceSplits(f: Filters, field: string, dir: string)
    requires '-' !in field && '-' !in dir
    ensures |Split(field + "-" + dir, '-')| == 2
    ensures HandleSortChange(f, field + "-" + dir) == f.(sortBy := field, sortOrder := dir)
  {
    SplitAtFirstSeparator(field, dir, '-');
    SplitWithoutSeparator(dir, '-');
  }

  /**
   * Every sort option splits into a field the list route orders recipes by
   * and the direction `asc` or `desc`, and the select then shows that option.
   */
  lemma SortOptionsWellFormed(f: Filters, i: int)
    requires 0 <= i < |SortOptionValues|
    ensures |Split(SortOptionValues[i], '-')| == 2
    ensures var r := HandleSortChange(f, SortOptionValues[i]);
      && SortValue(r) == SortOptionValues[i]
      && (r.sortOrder == "asc" || r.sortOrder == "desc")
      && RecipeQuery.SortPathAccepted(r.sortBy) && forall e :: !RecipeQuery.SortKey(e, r.sortBy).Missing?
  {
    var v := SortOptionValues[i];
    if i == 0 {
      SortOptionOf(f, v, "createdAt", "desc");
    } else if i == 1 {
      SortOptionOf(f, v, "createdAt", "asc");
    } else if i == 2 {
      SortOptionOf(f, v, "averageRating", "desc");
    } else if i == 3 {
      SortOptionOf(f, v, "title", "asc");
    } else {
      SortOptionOf(f, v, "title", "desc");
    }
  }

  /** One sort option, written as its field and direction. */
  lemma SortOptionOf(f: Filters, value: string, field: string, dir: string)
    requires field == "createdAt" || field == "averageRating" || field == "title"
    requires dir == "asc" || dir == "desc"
    requires value == field + "-" + dir
    ensures |Split(value, '-')| == 2
    ensures var r := HandleSortChange(f, value);
      && SortValue(r) == value
      && (r.sortOrder == "asc" || r.sortOrder == "desc")
      && RecipeQuery.SortPathAccepted(r.sortBy) && forall e :: !RecipeQuery.SortKey(e, r.sortBy).Missing?
  {
    assert '-' !in field && '-' !in dir;
    SortChoiceSplits(f, field, dir);
    OfferedFieldSorts(field);
  }

  /** The fields the select offers are paths the database accepts and every recipe has. */
  lemma OfferedFieldSorts(field: string)
    requires field == "createdAt" || field == "averageRating" || field == "title"
    ensures RecipeQuery.SortPathAccepted(field) && forall e :: !RecipeQuery.SortKey(e, field).Missing?
  {
    assert '.' !in field;
    RecipeQuery.SortPathWithoutDot(field);
  }
}
