/**
 * What the recipe list and my-recipes queries compute
 * (server/routes/recipes.js lines 8-66 and 269-286): the storage order of
 * the collection, the filter built from the query string, the sort on one
 * field in one direction, and skip/limit pagination with its summary.
 */
module RecipeQuery {
  import opened Wrappers
  import opened Text
  import opened RecipeSchema
  import RecipeModel

  type RecipeId = nat

  /** A stored recipe together with its id. */
  datatype Entry = Entry(id: RecipeId, recipe: Recipe)

  predicate IdsIncreasing(es: seq<Entry>) {
    forall i, j :: 0 <= i < j < |es| ==> es[i].id < es[j].id
  }

  // ---------------------------------------------------------------------
  // Storage order: ids are handed out in increasing order, so a scan of the
  // collection meets the recipes in ascending id order.

  /** The entries of `m` whose ids lie in [from, to), in ascending id order. */
  function Collect(m: map<RecipeId, Recipe>, from: nat, to: nat): (es: seq<Entry>)
    ensures forall i :: 0 <= i < |es| ==> from <= es[i].id < to && es[i].id in m && m[es[i].id] == es[i].recipe
    ensures forall id :: from <= id < to && id in m ==> Entry(id, m[id]) in es
    ensures IdsIncreasing(es)
    decreases if from < to then to - from else 0
  {
    if from >= to then []
    else
      var rest := Collect(m, from + 1, to);
      if from in m then
        var head := Entry(from, m[from]);
        PrependIncreasing(head, rest);
        assert forall i :: 0 < i < |[head] + rest| ==> ([head] + rest)[i] == rest[i - 1];
        [head] + rest
      else rest
  }

  // ---------------------------------------------------------------------
  // Filtering

  /** Whether a query-string value is truthy: present and not empty. */
  predicate Truthy(v: Option<string>) {
    v.Some? && v.value != ""
  }

  /**
   * A MongoDB filter document as the routes build it: `category`,
   * `difficulty` and the search `$or` of the list route, `author` of
   * my-recipes. An absent part constrains nothing.
   */
  datatype Filter = Filter(category: Option<string>, difficulty: Option<string>, search: Option<string>, author: Option<UserId>)

  /** `$in: [new RegExp(search, 'i')]` on the tags array: some tag contains the term. */
  predicate AnyTagMatches(tags: seq<string>, term: string) {
    exists k :: 0 <= k < |tags| && ContainsIgnoreCase(tags[k], term)
  }

  /** The `$or` of the search: title, description or one of the tags contains the term, ignoring case. */
  predicate MatchesSearch(c: RecipeContent, term: string) {
    ContainsIgnoreCase(c.title, term) || ContainsIgnoreCase(c.description, term) || AnyTagMatches(c.tags, term)
  }

  /** A recipe matches a filter when it meets every part the filter has. */
  predicate Matches(r: Recipe, f: Filter) {
    && (f.category.Some? ==> CategoryName(r.content.category) == f.category.value)
    && (f.difficulty.Some? ==> DifficultyName(r.content.difficulty) == f.difficulty.value)
    && (f.search.Some? ==> MatchesSearch(r.content, f.search.value))
    && (f.author.Some? ==> r.content.author == f.author.value)
  }

  /** A non-empty sequence holds its first entry and the entries after it. */
  lemma HeadAndTail(es: seq<Entry>)
    requires es != []
    ensures forall e :: e in es <==> e == es[0] || e in es[1..]
  {
    assert es == [es[0]] + es[1..];
  }

  /** In increasing order, the first entry's id is below every later one's, and the rest is increasing too. */
  lemma HeadBelowTail(es: seq<Entry>)
    requires es != []
    ensures IdsIncreasing(es) ==> forall e :: e in es[1..] ==> es[0].id < e.id
    ensures IdsIncreasing(es) ==> IdsIncreasing(es[1..])
  {
    if IdsIncreasing(es) {
      forall i, j | 0 <= i < j < |es[1..]| ensures es[1..][i].id < es[1..][j].id {
        assert es[1..][i] == es[i + 1] && es[1..][j] == es[j + 1];
      }
      forall e | e in es[1..] ensures es[0].id < e.id {
        var i :| 0 <= i < |es[1..]| && es[1..][i] == e;
        assert es[i + 1] == e;
      }
    }
  }

  /** An entry below every id of an increasing sequence can go in front of it. */
  lemma PrependIncreasing(e: Entry, rest: seq<Entry>)
    ensures IdsIncreasing(rest) && (forall x :: x in rest ==> e.id < x.id) ==> IdsIncreasing([e] + rest)
  {
    if IdsIncreasing(rest) && (forall x :: x in rest ==> e.id < x.id) {
      forall i, j | 0 <= i < j < |[e] + rest| ensures ([e] + rest)[i].id < ([e] + rest)[j].id {
        if i == 0 {
          assert ([e] + rest)[j] == rest[j - 1];
          assert rest[j - 1] in rest;
        } else {
          assert ([e] + rest)[i] == rest[i - 1] && ([e] + rest)[j] == rest[j - 1];
        }
      }
    }
  }

  /** `find(filter)`: the entries whose recipe matches, in their original order. */
  function Select(es: seq<Entry>, f: Filter): (out: seq<Entry>)
    ensures |out| <= |es|
    ensures forall e :: e in out <==> e in es && Matches(e.recipe, f)
    ensures IdsIncreasing(es) ==> IdsIncreasing(out)
    decreases |es|
  {
    if es == [] then []
    else
      var rest := Select(es[1..], f);
      SelectStep(es, f, rest);
      HeadBelowTail(es);
      if Matches(es[0].recipe, f) then
        PrependIncreasing(es[0], rest);
        [es[0]] + rest
      else rest
  }

  /** One step of `find(filter)`: keeping the first entry when it matches extends the selection of the rest. */
  lemma SelectStep(es: seq<Entry>, f: Filter, rest: seq<Entry>)
    requires es != []
    requires forall e :: e in rest <==> e in es[1..] && Matches(e.recipe, f)
    ensures forall e ::
      e in (if Matches(es[0].recipe, f) then [es[0]] + rest else rest) <==> e in es && Matches(e.recipe, f)
  {
    HeadAndTail(es);
  }

  function IdsOf(es: seq<Entry>): set<RecipeId> {
    set i | 0 <= i < |es| :: es[i].id
  }

  /** Entries with strictly increasing ids hold each id once, so their number is the number of ids. */
  lemma {:induction false} IncreasingIdsCount(es: seq<Entry>)
    requires IdsIncreasing(es)
    ensures |IdsOf(es)| == |es|
    decreases |es|
  {
    if es != [] {
      var init := es[..|es| - 1];
      var last := es[|es| - 1];
      assert IdsIncreasing(init);
      IncreasingIdsCount(init);
      assert IdsOf(es) == IdsOf(init) + {last.id} by {
        forall i | 0 <= i < |init| ensures init[i].id == es[i].id {
        }
      }
      assert last.id !in IdsOf(init);
    }
  }

  /** The keys of a map whose recipes a filter matches. */
  ghost function MatchingKeys(m: map<RecipeId, Recipe>, f: Filter): set<RecipeId> {
    set id | id in m && Matches(m[id], f)
  }

  /** Selecting from entries that list a map exactly picks one entry for each key whose recipe matches. */
  lemma SelectIds(m: map<RecipeId, Recipe>, es: seq<Entry>, f: Filter)
    requires forall e :: e in es <==> e.id in m && m[e.id] == e.recipe
    ensures IdsOf(Select(es, f)) == MatchingKeys(m, f)
  {
    var matching := Select(es, f);
    forall id | id in IdsOf(matching) ensures id in m && Matches(m[id], f) {
      var i :| 0 <= i < |matching| && matching[i].id == id;
      assert matching[i] in matching;
    }
    forall id | id in m && Matches(m[id], f) ensures id in IdsOf(matching) {
      var e := Entry(id, m[id]);
      assert e in matching;
      var i :| 0 <= i < |matching| && matching[i] == e;
    }
  }

  /** So the number of selected entries is the number of matching keys. */
  lemma SelectCountOf(m: map<RecipeId, Recipe>, es: seq<Entry>, f: Filter)
    requires forall e :: e in es <==> e.id in m && m[e.id] == e.recipe
    requires IdsIncreasing(es)
    ensures |Select(es, f)| == |MatchingKeys(m, f)|
  {
    SelectIds(m, es, f);
    IncreasingIdsCount(Select(es, f));
  }

  // ---------------------------------------------------------------------
  // Sorting: a missing field sorts before any number, a number before any
  // string, and strings compare character by character.

  datatype Key = Missing | Num(n: int) | Str(s: string)

  predicate LexLe(a: string, b: string)
    decreases |a|
  {
    |a| == 0 || (|b| > 0 && (a[0] < b[0] || (a[0] == b[0] && LexLe(a[1..], b[1..]))))
  }

  predicate KeyLe(a: Key, b: Key) {
    match a
    case Missing => true
    case Num(x) => (b.Num? && x <= b.n) || b.Str?
    case Str(x) => b.Str? && LexLe(x, b.s)
  }

  lemma {:induction false} LexLeTotal(a: string, b: string)
    ensures LexLe(a, b) || LexLe(b, a)
    decreases |a|
  {
    if |a| > 0 && |b| > 0 && a[0] == b[0] {
      LexLeTotal(a[1..], b[1..]);
    }
  }

  lemma {:induction false} LexLeTransitive(a: string, b: string, c: string)
    requires LexLe(a, b) && LexLe(b, c)
    ensures LexLe(a, c)
    decreases |a|
  {
    if |a| > 0 && a[0] == b[0] && b[0] == c[0] {
      LexLeTransitive(a[1..], b[1..], c[1..]);
    }
  }

  lemma KeyLeTotal(a: Key, b: Key)
    ensures KeyLe(a, b) || KeyLe(b, a)
  {
    if a.Str? && b.Str? {
      LexLeTotal(a.s, b.s);
    }
  }

  lemma KeyLeTransitive(a: Key, b: Key, c: Key)
    requires KeyLe(a, b) && KeyLe(b, c)
    ensures KeyLe(a, c)
  {
    if a.Str? && b.Str? && c.Str? {
      LexLeTransitive(a.s, b.s, c.s);
    }
  }

  /**
   * The value a stored recipe has under the field named by `sortBy`: its
   * numbers and dates (a date as its timestamp), its strings, its author
   * (an ObjectId, ordered as the user's number) and `_id` (the recipe's
   * id, which grows with creation). `$natural` is the order the documents
   * were inserted in, which is the order of their ids. A path the document
   * does not have is null to MongoDB, so every recipe ranks equal under it.
   */
  function SortKey(e: Entry, field: string): Key {
    var r := e.recipe;
    if field == "_id" || field == "$natural" then Num(e.id)
    else if field == "createdAt" then Num(r.content.createdAt)
    else if field == "averageRating" then Num(r.averageRating)
    else if field == "ratingCount" then Num(r.ratingCount)
    else if field == "prepTime" then Num(r.content.prepTime)
    else if field == "cookTime" then Num(r.content.cookTime)
    else if field == "servings" then Num(r.content.servings)
    else if field == "author" then Num(r.content.author)
    else if field == "title" then Str(r.content.title)
    else if field == "description" then Str(r.content.description)
    else if field == "category" then Str(CategoryName(r.content.category))
    else if field == "difficulty" then Str(DifficultyName(r.content.difficulty))
    else if field == "image" then Str(r.content.image)
    else Missing
  }

  /** Sorting on `_id` ascending is storage order: increasing ids are sorted, and sorted distinct ids increase. */
  lemma SortByIdIsStorageOrder(es: seq<Entry>)
    ensures IdsIncreasing(es) ==> SortedBy(es, "_id", true)
    ensures SortedBy(es, "_id", true) && (forall i, j :: 0 <= i < j < |es| ==> es[i].id != es[j].id) ==> IdsIncreasing(es)
  {
    forall i, j | 0 <= i < j < |es| ensures InOrder(es[i], es[j], "_id", true) <==> es[i].id <= es[j].id {
      assert SortKey(es[i], "_id") == Num(es[i].id) && SortKey(es[j], "_id") == Num(es[j].id);
    }
  }

  /** `{$natural: 1}` reads storage order and `{$natural: -1}` reads it backwards. */
  lemma NaturalIsStorageOrder(es: seq<Entry>)
    ensures IdsIncreasing(es) ==> SortedBy(es, "$natural", true)
    ensures SortedBy(es, "$natural", false) ==> forall i, j :: 0 <= i < j < |es| ==> es[i].id >= es[j].id
  {
    forall i, j | 0 <= i < j < |es|
      ensures InOrder(es[i], es[j], "$natural", true) <==> es[i].id <= es[j].id
      ensures InOrder(es[i], es[j], "$natural", false) <==> es[i].id >= es[j].id
    {
      assert SortKey(es[i], "$natural") == Num(es[i].id) && SortKey(es[j], "$natural") == Num(es[j].id);
    }
  }

  /**
   * The sort paths MongoDB accepts: every dot-separated part is non-empty
   * and does not start with `$`, apart from `$natural`. `{'': -1}` or
   * `{'$x': 1}` makes the query fail.
   */
  predicate SortPathAccepted(field: string) {
    field == "$natural" || PartsAccepted(Split(field, '.'))
  }

  predicate PartAccepted(part: string) {
    part != "" && part[0] != '$'
  }

  predicate PartsAccepted(parts: seq<string>) {
    forall k :: 0 <= k < |parts| ==> PartAccepted(parts[k])
  }

  /** A path without a dot is accepted exactly when it is `$natural` or non-empty and not `$`-prefixed. */
  lemma SortPathWithoutDot(field: string)
    requires '.' !in field
    ensures SortPathAccepted(field) <==> field == "$natural" || PartAccepted(field)
  {
    SplitWithoutSeparator(field, '.');
  }

  /** Past its first dot, a path is accepted exactly when its first part and the rest are (`$natural` aside). */
  lemma SortPathAtDot(a: string, b: string)
    requires '.' !in a
    ensures SortPathAccepted(a + ['.'] + b) <==>
      a + ['.'] + b == "$natural" || (PartAccepted(a) && PartsAccepted(Split(b, '.')))
  {
    SplitAtFirstSeparator(a, b, '.');
    PartsAcceptedCons(a, Split(b, '.'));
  }

  lemma PartsAcceptedCons(a: string, rest: seq<string>)
    ensures PartsAccepted([a] + rest) <==> PartAccepted(a) && PartsAccepted(rest)
  {
    if PartAccepted(a) && PartsAccepted(rest) {
      forall k | 0 <= k < |[a] + rest| ensures PartAccepted(([a] + rest)[k]) {
        if k > 0 {
          assert ([a] + rest)[k] == rest[k - 1];
        }
      }
    }
    if PartsAccepted([a] + rest) {
      assert ([a] + rest)[0] == a;
      forall k | 0 <= k < |rest| ensures PartAccepted(rest[k]) {
        assert ([a] + rest)[k + 1] == rest[k];
      }
    }
  }

  /** `sortBy=` and `sortBy=$where` make the query fail. */
  lemma SortPathRejected()
    ensures !SortPathAccepted("") && !SortPathAccepted("$where")
  {
    SortPathWithoutDot("");
    SortPathWithoutDot("$where");
  }

  /** A plain field name and `$natural` are accepted. */
  lemma SortPathAcceptedExamples()
    ensures SortPathAccepted("createdAt") && SortPathAccepted("$natural")
  {
    SortPathWithoutDot("createdAt");
  }

  /** `a` may come before `b` when sorting on `field`: `{field: 1}` ascending, `{field: -1}` descending. */
  predicate InOrder(a: Entry, b: Entry, field: string, ascending: bool) {
    if ascending then KeyLe(SortKey(a, field), SortKey(b, field))
    else KeyLe(SortKey(b, field), SortKey(a, field))
  }

  predicate SortedBy(es: seq<Entry>, field: string, ascending: bool) {
    forall i, j :: 0 <= i < j < |es| ==> InOrder(es[i], es[j], field, ascending)
  }

  /** Sorting on `{createdAt: -1}` puts newer recipes first. */
  lemma NewestFirst(es: seq<Entry>)
    requires SortedBy(es, "createdAt", false)
    ensures forall i, j :: 0 <= i < j < |es| ==> es[i].recipe.content.createdAt >= es[j].recipe.content.createdAt
  {
    forall i, j | 0 <= i < j < |es| ensures es[i].recipe.content.createdAt >= es[j].recipe.content.createdAt {
      assert InOrder(es[i], es[j], "createdAt", false);
      assert SortKey(es[i], "createdAt") == Num(es[i].recipe.content.createdAt);
      assert SortKey(es[j], "createdAt") == Num(es[j].recipe.content.createdAt);
    }
  }

  lemma InOrderTotal(a: Entry, b: Entry, field: string, ascending: bool)
    ensures InOrder(a, b, field, ascending) || InOrder(b, a, field, ascending)
  {
    KeyLeTotal(SortKey(a, field), SortKey(b, field));
  }

  lemma InOrderTransitive(a: Entry, b: Entry, c: Entry, field: string, ascending: bool)
    requires InOrder(a, b, field, ascending) && InOrder(b, c, field, ascending)
    ensures InOrder(a, c, field, ascending)
  {
    var ka, kb, kc := SortKey(a, field), SortKey(b, field), SortKey(c, field);
    if ascending {
      KeyLeTransitive(ka, kb, kc);
    } else {
      KeyLeTransitive(kc, kb, ka);
    }
  }

  /** An entry ordered before every entry of a sorted sequence can go in front of it. */
  lemma PrependSorted(x: Entry, es: seq<Entry>, field: string, ascending: bool)
    requires SortedBy(es, field, ascending)
    requires forall y :: y in es ==> InOrder(x, y, field, ascending)
    ensures SortedBy([x] + es, field, ascending)
  {
    forall i, j | 0 <= i < j < |[x] + es| ensures InOrder(([x] + es)[i], ([x] + es)[j], field, ascending) {
      assert ([x] + es)[j] == es[j - 1] && es[j - 1] in es;
      if i > 0 {
        assert ([x] + es)[i] == es[i - 1];
      }
    }
  }

  /** An entry ordered before the first entry of a sorted sequence is ordered before all of them. */
  lemma BeforeHeadBeforeAll(x: Entry, es: seq<Entry>, field: string, ascending: bool)
    requires SortedBy(es, field, ascending) && es != [] && InOrder(x, es[0], field, ascending)
    ensures forall y :: y in es ==> InOrder(x, y, field, ascending)
  {
    forall y | y in es ensures InOrder(x, y, field, ascending) {
      var j :| 0 <= j < |es| && es[j] == y;
      if j > 0 {
        InOrderTransitive(x, es[0], es[j], field, ascending);
      }
    }
  }

  /** The first entry of a sorted sequence is ordered before each of the rest. */
  lemma HeadBeforeTail(es: seq<Entry>, field: string, ascending: bool)
    requires SortedBy(es, field, ascending) && es != []
    ensures forall y :: y in es[1..] ==> InOrder(es[0], y, field, ascending)
  {
    forall y | y in es[1..] ensures InOrder(es[0], y, field, ascending) {
      var j :| 0 <= j < |es[1..]| && es[1..][j] == y;
      assert es[j + 1] == y;
    }
  }

  /** Whatever comes from `tail` or is `e` is ordered after `h` when each of those is. */
  lemma AfterAllOfUnion(h: Entry, e: Entry, tail: seq<Entry>, rest: seq<Entry>, field: string, ascending: bool)
    requires multiset(rest) == multiset(tail) + multiset{e}
    requires InOrder(h, e, field, ascending)
    requires forall y :: y in tail ==> InOrder(h, y, field, ascending)
    ensures forall x :: x in rest ==> InOrder(h, x, field, ascending)
  {
    forall x | x in rest ensures InOrder(h, x, field, ascending) {
      assert x in multiset(rest);
      if x != e {
        assert x in multiset(tail);
      }
    }
  }

  /** Insertion of one entry into a sorted sequence. */
  function Insert(e: Entry, es: seq<Entry>, field: string, ascending: bool): (out: seq<Entry>)
    requires SortedBy(es, field, ascending)
    ensures SortedBy(out, field, ascending)
    ensures multiset(out) == multiset(es) + multiset{e}
    decreases |es|
  {
    if es == [] then [e]
    else if InOrder(e, es[0], field, ascending) then
      BeforeHeadBeforeAll(e, es, field, ascending);
      PrependSorted(e, es, field, ascending);
      [e] + es
    else
      InOrderTotal(e, es[0], field, ascending);
      assert SortedBy(es[1..], field, ascending) by {
        forall i, j | 0 <= i < j < |es[1..]| ensures InOrder(es[1..][i], es[1..][j], field, ascending) {
          assert es[1..][i] == es[i + 1] && es[1..][j] == es[j + 1];
        }
      }
      var rest := Insert(e, es[1..], field, ascending);
      assert es == [es[0]] + es[1..];
      HeadBeforeTail(es, field, ascending);
      AfterAllOfUnion(es[0], e, es[1..], rest, field, ascending);
      PrependSorted(es[0], rest, field, ascending);
      [es[0]] + rest
  }

  /** The order `.sort({[sortBy]: direction})` returns: sorted on the key, a permutation of its input. */
  function SortEntries(es: seq<Entry>, field: string, ascending: bool): (out: seq<Entry>)
    ensures SortedBy(out, field, ascending)
    ensures multiset(out) == multiset(es)
    decreases |es|
  {
    if es == [] then []
    else
      assert es == [es[0]] + es[1..];
      Insert(es[0], SortEntries(es[1..], field, ascending), field, ascending)
  }

  /**
   * Two recipes in storage order: `$natural` keeps them ascending and
   * reverses them descending, and equal keys keep storage order, in
   * either direction, because insertion puts an entry before its equals.
   */
  lemma StorageOrderBreaksTies(e1: Entry, e2: Entry, field: string, ascending: bool)
    requires e1.id < e2.id
    ensures SortEntries([e1, e2], "$natural", true) == [e1, e2]
    ensures SortEntries([e1, e2], "$natural", false) == [e2, e1]
    ensures SortKey(e1, field) == SortKey(e2, field) ==> SortEntries([e1, e2], field, ascending) == [e1, e2]
  {
    assert [e1, e2][1..] == [e2];
    assert SortEntries([e2], field, ascending) == [e2];
    assert SortEntries([e2], "$natural", true) == [e2];
    assert SortEntries([e2], "$natural", false) == [e2];
  }

  /** Sorting neither adds nor drops entries. */
  lemma SortKeepsMembers(es: seq<Entry>, field: string, ascending: bool)
    ensures var out := SortEntries(es, field, ascending);
      |out| == |es| && forall e :: e in out <==> e in es
  {
    var out := SortEntries(es, field, ascending);
    assert |multiset(out)| == |multiset(es)|;
    forall e ensures e in out <==> e in es {
      assert e in out <==> e in multiset(out);
      assert e in es <==> e in multiset(es);
    }
  }

  /** A page of a sorted selection is itself sorted and holds only matching entries of the input. */
  lemma PageOfSortedSelection(es: seq<Entry>, f: Filter, field: string, ascending: bool, skip: nat, limit: nat)
    ensures var items := PageSlice(SortEntries(Select(es, f), field, ascending), skip, limit);
      && SortedBy(items, field, ascending)
      && forall i :: 0 <= i < |items| ==> items[i] in es && Matches(items[i].recipe, f)
  {
    var sorted := SortEntries(Select(es, f), field, ascending);
    var items := PageSlice(sorted, skip, limit);
    SortKeepsMembers(Select(es, f), field, ascending);
    forall i | 0 <= i < |items| ensures items[i] in es && Matches(items[i].recipe, f) {
      assert items[i] == sorted[skip + i];
      assert sorted[skip + i] in sorted;
    }
    forall i, j | 0 <= i < j < |items| ensures InOrder(items[i], items[j], field, ascending) {
      assert items[i] == sorted[skip + i] && items[j] == sorted[skip + j];
    }
  }

  // ---------------------------------------------------------------------
  // Pagination

  /** `Math.ceil(n / d)` for a positive divisor: the least q with q * d >= n. */
  function CeilDiv(n: nat, d: nat): (q: nat)
    requires d >= 1
    ensures q * d >= n
    ensures q == 0 || (q - 1) * d < n
  {
    if n == 0 then 0
    else
      var k := (n - 1) / d;
      assert n - 1 == d * k + (n - 1) % d;
      k + 1
  }

  /** `.skip(skip).limit(limit)`: the entries from position `skip` on, at most `limit` of them. */
  function PageSlice(es: seq<Entry>, skip: nat, limit: nat): (out: seq<Entry>)
    ensures |out| <= limit
    ensures forall i :: 0 <= i < |out| ==> skip + i < |es| && out[i] == es[skip + i]
    ensures |out| == limit || skip + |out| >= |es|
  {
    if skip >= |es| then []
    else if skip + limit <= |es| then es[skip..skip + limit]
    else es[skip..]
  }

  /** The recipes the list route returns for `page`: `.skip((page - 1) * limit).limit(limit)`. */
  function PageAt(es: seq<Entry>, page: int, limit: int): seq<Entry>
    requires page >= 1 && limit >= 1
  {
    PageSlice(es, (page - 1) * limit, limit)
  }

  datatype Pagination = Pagination(
    currentPage: int,
    totalPages: nat,
    totalRecipes: nat,
    hasNextPage: bool,
    hasPrevPage: bool)

  /** The `pagination` summary of a response for `total` matching recipes. */
  function Paginate(page: int, limit: nat, total: nat): (p: Pagination)
    requires limit >= 1
    ensures p.totalRecipes == total && p.currentPage == page
    ensures p.totalPages * limit >= total && (p.totalPages == 0 || (p.totalPages - 1) * limit < total)
    ensures p.hasNextPage <==> page < p.totalPages
    ensures p.hasPrevPage <==> page > 1
  {
    var totalPages := CeilDiv(total, limit);
    Pagination(page, totalPages, total, page < totalPages, page > 1)
  }

  /** Fewer than ceil(n / d) pages of size d hold fewer than n entries. */
  lemma BelowCeilIff(k: nat, d: nat, n: nat)
    requires d >= 1
    ensures k < CeilDiv(n, d) <==> k * d < n
  {
    var q := CeilDiv(n, d);
    if k < q {
      RecipeModel.MulMonotone(k, q - 1, d);
    }
    if k >= q {
      RecipeModel.MulMonotone(q, k, d);
    }
  }

  /** A page (1-based) is non-empty exactly when it is one of the `totalPages` pages. */
  lemma PageNonEmptyIff(es: seq<Entry>, page: int, limit: nat)
    requires page >= 1 && limit >= 1
    ensures |PageSlice(es, (page - 1) * limit, limit)| > 0 <==> page <= Paginate(page, limit, |es|).totalPages
  {
    BelowCeilIff(page - 1, limit, |es|);
  }

  /** `hasNextPage` holds exactly when some matching recipe lies beyond the current page. */
  lemma HasNextPageIff(page: int, limit: nat, total: nat)
    requires page >= 1 && limit >= 1
    ensures Paginate(page, limit, total).hasNextPage <==> page * limit < total
  {
    BelowCeilIff(page, limit, total);
  }

  /** Entry `i` appears on page `i / limit + 1` at position `i % limit`, and that page exists. */
  lemma EveryEntryOnItsPage(es: seq<Entry>, limit: nat, i: nat)
    requires limit >= 1 && i < |es|
    ensures var page, pos := i / limit + 1, i % limit;
      var slice := PageSlice(es, (page - 1) * limit, limit);
      pos < |slice| && slice[pos] == es[i] && page <= CeilDiv(|es|, limit)
  {
    var k, pos := i / limit, i % limit;
    assert i == k * limit + pos;
    BelowCeilIff(k, limit, |es|);
  }

  /** An entry of a sequence without repeated ids is on no page but its own. */
  lemma EntryOnlyOnItsPage(es: seq<Entry>, limit: int, i: nat, page: int)
    requires limit >= 1 && page >= 1 && i < |es|
    requires forall a, b :: 0 <= a < b < |es| ==> es[a].id != es[b].id
    requires es[i] in PageAt(es, page, limit)
    ensures page == i / limit + 1
  {
    var out := PageAt(es, page, limit);
    RecipeModel.MulMonotone(0, page - 1, limit);
    var skip: nat := (page - 1) * limit;
    var pos :| 0 <= pos < |out| && out[pos] == es[i];
    assert es[skip + pos] == es[i];
    assert skip + pos == i;
    DivOfSum(page - 1, limit, pos);
  }

  lemma DivOfSum(k: nat, d: int, r: nat)
    requires d >= 1 && r < d
    ensures (k * d + r) / d == k
  {
    var n := k * d + r;
    var q, m := n / d, n % d;
    assert q * d + m == n && 0 <= m < d;
    if q > k {
      assert (k + 1) * d == k * d + d;
      RecipeModel.MulMonotone(k + 1, q, d);
    } else if q < k {
      assert (q + 1) * d == q * d + d;
      RecipeModel.MulMonotone(q + 1, k, d);
    }
  }
}
