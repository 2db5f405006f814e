/**
 * The recipe routes (server/routes/recipes.js) over an in-memory
 * collection: list with filters, sort and pagination, read one, create,
 * update and delete guarded by authorship, rate, and my-recipes.
 *
 * The authenticated caller is a parameter (`req.user._id`); so is the
 * creation time, which the database would take from the clock. Failure
 * responses become the `Error` datatype.
 */
module RecipeRoutes {
  import opened Wrappers
  import opened Text
  import opened RecipeSchema
  import opened RecipeModel
  import opened RecipeQuery

  /** 404, 403, 400 with the collected validation errors, and 500. */
  datatype Error = NotFound | Forbidden | ValidationFailed(violations: seq<Violation>) | InternalFailure

  /** The query string of `GET /api/recipes`; page and limit already read as integers. */
  datatype ListQuery = ListQuery(
    page: Option<int>,
    limit: Option<int>,
    category: Option<string>,
    difficulty: Option<string>,
    search: Option<string>,
    sortBy: Option<string>,
    sortOrder: Option<string>)

  datatype RecipePage = RecipePage(recipes: seq<Entry>, pagination: Pagination)

  const DefaultPage := 1
  const DefaultLimit := 12
  const DefaultSortBy := "createdAt"
  const DefaultSortOrder := "desc"

  function PageOf(q: ListQuery): int { q.page.GetOr(DefaultPage) }
  function LimitOf(q: ListQuery): int { q.limit.GetOr(DefaultLimit) }
  function SortFieldOf(q: ListQuery): string { q.sortBy.GetOr(DefaultSortBy) }
  function AscendingOf(q: ListQuery): bool { q.sortOrder.GetOr(DefaultSortOrder) == "asc" }

  /** The filter the list route builds: a part only for each truthy query value, never an author. */
  function QueryFilter(q: ListQuery): (f: Filter)
    ensures f.author.None?
  {
    Filter(
      if Truthy(q.category) then q.category else None,
      if Truthy(q.difficulty) then q.difficulty else None,
      if Truthy(q.search) then q.search else None,
      None)
  }

  /** The list route's `filter` object, built up one truthy query value at a time. */
  method BuildFilter(q: ListQuery) returns (filter: Filter)
    ensures filter == QueryFilter(q)
  {
    filter := Filter(None, None, None, None);
    if Truthy(q.category) {
      filter := filter.(category := q.category);
    }
    if Truthy(q.difficulty) {
      filter := filter.(difficulty := q.difficulty);
    }
    if Truthy(q.search) {
      filter := filter.(search := q.search);
    }
  }

  /** What a listed recipe must satisfy: empty query values constrain nothing, category and difficulty match exactly. */
  predicate QueryMatches(r: Recipe, q: ListQuery) {
    && (Truthy(q.category) ==> CategoryName(r.content.category) == q.category.value)
    && (Truthy(q.difficulty) ==> DifficultyName(r.content.difficulty) == q.difficulty.value)
    && (Truthy(q.search) ==> MatchesSearch(r.content, q.search.value))
  }

  lemma QueryFilterMeaning(q: ListQuery)
    ensures forall r :: Matches(r, QueryFilter(q)) <==> QueryMatches(r, q)
  {
  }

  // ---------------------------------------------------------------------
  // Ratings, as the rating route rewrites them

  /** `ratings.findIndex(r => r.user == user)`: the first index rated by `user`, or -1. */
  function FindRatingIndex(rs: seq<Rating>, user: UserId): (i: int)
    ensures -1 <= i < |rs|
    ensures i == -1 <==> forall k :: 0 <= k < |rs| ==> rs[k].user != user
    ensures i >= 0 ==> rs[i].user == user && forall k :: 0 <= k < i ==> rs[k].user != user
    decreases |rs|
  {
    if rs == [] then -1
    else if rs[0].user == user then 0
    else
      var j := FindRatingIndex(rs[1..], user);
      if j == -1 then -1 else j + 1
  }

  /**
   * The comment of the rating entry written for `user`: a truthy comment,
   * trimmed by the schema's setter; otherwise the comment of the entry it
   * replaces, or '' for a new entry.
   */
  function NewComment(rs: seq<Rating>, user: UserId, comment: Option<string>): string {
    if Truthy(comment) then Trim(comment.value)
    else
      var i := FindRatingIndex(rs, user);
      if i >= 0 then rs[i].comment else ""
  }

  /** The ratings after `user` rates `score`: the user's entry replaced in place, or a new entry appended. */
  function UpsertRating(rs: seq<Rating>, user: UserId, score: int, comment: Option<string>): seq<Rating> {
    var entry := Rating(user, score, NewComment(rs, user, comment));
    var i := FindRatingIndex(rs, user);
    if i >= 0 then rs[i := entry] else rs + [entry]
  }

  /**
   * Where the upsert writes: over the user's first rating when there is one,
   * leaving every other position as it was, otherwise in a new entry at the
   * end. The entry carries the new score and the trimmed comment, or without
   * a truthy comment the comment already stored (a new entry gets '').
   */
  lemma UpsertShape(rs: seq<Rating>, user: UserId, score: int, comment: Option<string>)
    ensures var out, i := UpsertRating(rs, user, score, comment), FindRatingIndex(rs, user);
      && (Truthy(comment) ==> NewComment(rs, user, comment) == Trim(comment.value))
      && (i >= 0 ==>
            && |out| == |rs|
            && out[i] == Rating(user, score, if Truthy(comment) then Trim(comment.value) else rs[i].comment)
            && forall k :: 0 <= k < |rs| && k != i ==> out[k] == rs[k])
      && (i < 0 ==> out == rs + [Rating(user, score, if Truthy(comment) then Trim(comment.value) else "")])
  {
  }

  function Raters(rs: seq<Rating>): set<UserId> {
    set k | 0 <= k < |rs| :: rs[k].user
  }

  predicate OneRatingPerUser(rs: seq<Rating>) {
    forall i, j :: 0 <= i < j < |rs| ==> rs[i].user != rs[j].user
  }

  /** A second rating by the same user replaces the first: the raters gain at most the new one and the count grows only for a new rater. */
  lemma UpsertRaters(rs: seq<Rating>, user: UserId, score: int, comment: Option<string>)
    ensures Raters(UpsertRating(rs, user, score, comment)) == Raters(rs) + {user}
    ensures |UpsertRating(rs, user, score, comment)| == if user in Raters(rs) then |rs| else |rs| + 1
  {
    var out := UpsertRating(rs, user, score, comment);
    var i := FindRatingIndex(rs, user);
    if i >= 0 {
      assert user in Raters(rs);
      forall u | u in Raters(rs) ensures u in Raters(out) {
        var k :| 0 <= k < |rs| && rs[k].user == u;
        assert out[k].user == u;
      }
      forall u | u in Raters(out) ensures u in Raters(rs) {
        var k :| 0 <= k < |out| && out[k].user == u;
        assert rs[k].user == u || k == i;
      }
    } else {
      assert user !in Raters(rs);
      forall u | u in Raters(rs) ensures u in Raters(out) {
        var k :| 0 <= k < |rs| && rs[k].user == u;
        assert out[k].user == u;
      }
      assert out[|rs|].user == user;
      forall u | u in Raters(out) ensures u in Raters(rs) + {user} {
        var k :| 0 <= k < |out| && out[k].user == u;
        if k < |rs| {
          assert rs[k].user == u;
        }
      }
    }
  }

  /** Upserting keeps each user's rating unique, and the user's entry carries the new score. */
  lemma UpsertKeepsOneRatingPerUser(rs: seq<Rating>, user: UserId, score: int, comment: Option<string>)
    requires OneRatingPerUser(rs)
    ensures var out := UpsertRating(rs, user, score, comment);
      && OneRatingPerUser(out)
      && forall k :: 0 <= k < |out| && out[k].user == user ==> out[k].score == score
  {
  }

  /** Ratings by other users are neither dropped nor altered, and no rating by another user appears. */
  lemma UpsertKeepsOthers(rs: seq<Rating>, user: UserId, score: int, comment: Option<string>)
    ensures var out := UpsertRating(rs, user, score, comment);
      && (forall k :: 0 <= k < |rs| && rs[k].user != user ==> rs[k] in out)
      && (forall x :: x in out && x.user != user ==> x in rs)
  {
    var out := UpsertRating(rs, user, score, comment);
    var i := FindRatingIndex(rs, user);
    forall k | 0 <= k < |rs| && rs[k].user != user ensures rs[k] in out {
      assert out[k] == rs[k];
    }
    forall x | x in out && x.user != user ensures x in rs {
      var k :| 0 <= k < |out| && out[k] == x;
      assert rs[k] == x;
    }
  }

  /** Rating twice with the same score and comment leaves the ratings as rating once does. */
  lemma UpsertIdempotent(rs: seq<Rating>, user: UserId, score: int, comment: Option<string>)
    ensures var once := UpsertRating(rs, user, score, comment);
      UpsertRating(once, user, score, comment) == once
  {
    var once := UpsertRating(rs, user, score, comment);
    var i := FindRatingIndex(rs, user);
    var j := if i >= 0 then i else |rs|;
    assert once[j].user == user;
    assert forall k :: 0 <= k < j ==> once[k].user != user;
    assert FindRatingIndex(once, user) == j;
  }

  /** Whether the rating entry a request writes passes the rating validators. */
  predicate RatingAccepted(rs: seq<Rating>, user: UserId, score: int, comment: Option<string>) {
    1 <= score <= 5 && Utf16Length(NewComment(rs, user, comment)) <= 500
  }

  /** A persistable recipe with its ratings upserted satisfies the schema exactly when the new entry does, and stays trimmed. */
  lemma UpsertSchemaIff(r: Recipe, user: UserId, score: int, comment: Option<string>)
    requires Persistable(r)
    ensures var u := r.(ratings := UpsertRating(r.ratings, user, score, comment));
      && (SatisfiesSchema(u) <==> RatingAccepted(r.ratings, user, score, comment))
      && Normalized(u)
  {
    UpsertRatingsOk(r.ratings, user, score, comment);
    UpsertRatingsTrimmed(r.ratings, user, score, comment);
  }

  /** Over valid ratings, the upserted list is valid exactly when the written entry is. */
  lemma UpsertRatingsOk(rs: seq<Rating>, user: UserId, score: int, comment: Option<string>)
    requires forall k :: 0 <= k < |rs| ==> RatingOk(rs[k])
    ensures var out := UpsertRating(rs, user, score, comment);
      (forall k :: 0 <= k < |out| ==> RatingOk(out[k])) <==> RatingAccepted(rs, user, score, comment)
  {
    var out := UpsertRating(rs, user, score, comment);
    var i := FindRatingIndex(rs, user);
    var j := if i >= 0 then i else |rs|;
    assert out[j] == Rating(user, score, NewComment(rs, user, comment));
    assert forall k :: 0 <= k < |out| && k != j ==> out[k] == rs[k];
  }

  /** Over trimmed comments, the upserted list holds trimmed comments. */
  lemma UpsertRatingsTrimmed(rs: seq<Rating>, user: UserId, score: int, comment: Option<string>)
    requires forall k :: 0 <= k < |rs| ==> IsTrimmed(rs[k].comment)
    ensures var out := UpsertRating(rs, user, score, comment);
      forall k :: 0 <= k < |out| ==> IsTrimmed(out[k].comment)
  {
    var out := UpsertRating(rs, user, score, comment);
    var i := FindRatingIndex(rs, user);
    var j := if i >= 0 then i else |rs|;
    assert out[j] == Rating(user, score, NewComment(rs, user, comment));
    assert forall k :: 0 <= k < |out| && k != j ==> out[k] == rs[k];
    assert IsTrimmed(NewComment(rs, user, comment));
  }

  /**
   * The document half of the rating route: the caller's entry is written
   * into the loaded document in place (replacing the caller's first entry,
   * or pushed at the end), and the document is saved. `None` when the
   * validators reject it.
   */
  method SaveRating(r: Recipe, caller: UserId, score: int, comment: Option<string>) returns (saved: Option<Recipe>)
    requires Persistable(r)
    ensures saved.Some? <==> RatingAccepted(r.ratings, caller, score, comment)
    ensures saved.Some? ==>
      && saved.value == WithAggregates(r.(ratings := UpsertRating(r.ratings, caller, score, comment)))
      && Persistable(saved.value)
  {
    var doc := new RecipeDocument.Load(r);
    var i := FindRatingIndex(doc.ratings, caller);
    var text := if Truthy(comment) then Trim(comment.value) else if i != -1 then doc.ratings[i].comment else "";
    var entry := Rating(caller, score, text);
    if i != -1 {
      doc.ratings := doc.ratings[i := entry];
    } else {
      doc.ratings := doc.ratings + [entry];
    }
    ghost var upserted := doc.Value();
    assert upserted == r.(ratings := UpsertRating(r.ratings, caller, score, comment));
    UpsertSchemaIff(r, caller, score, comment);
    var violations := doc.Save();
    if violations != [] {
      return None;
    }
    WithAggregatesPersistable(upserted);
    saved := Some(doc.Value());
  }

  // ---------------------------------------------------------------------
  // The collection

  /** Every id was handed out by the counter, and every stored document satisfies the schema and is trimmed (for the plain-value bodies modelled). */
  ghost predicate ValidStore(recipes: map<RecipeId, Recipe>, nextId: RecipeId) {
    forall id :: id in recipes ==> id < nextId && Persistable(recipes[id])
  }

  lemma ValidStoreUpdate(recipes: map<RecipeId, Recipe>, nextId: RecipeId, id: RecipeId, r: Recipe, newNextId: RecipeId)
    requires ValidStore(recipes, nextId) && nextId <= newNextId && id < newNextId && Persistable(r)
    ensures ValidStore(recipes[id := r], newNextId)
  {
  }

  /** A body that passes the update validators conforms, and merging it keeps a persistable recipe persistable. */
  lemma UpdatedPersistable(r: Recipe, inp: RecipeInput)
    requires Persistable(r)
    requires Violations(inp, false) == [] && NormalizedInput(inp)
    ensures ConformsToSchema(inp, false)
    ensures Persistable(Merge(r, inp))
  {
    ViolationsEmptyIff(inp, false);
    MergePreservesPersistable(r, inp);
  }

  /** A body that passes the save validators conforms, and the recipe it builds is persistable once the hook has run. */
  lemma CreatedPersistable(inp: RecipeInput, now: int)
    requires Violations(inp, true) == [] && NormalizedInput(inp)
    ensures ConformsToSchema(inp, true)
    ensures Persistable(WithAggregates(Build(inp, now)))
  {
    ViolationsEmptyIff(inp, true);
    WithAggregatesPersistable(Build(inp, now));
  }

  class RecipeStore {
    var recipes: map<RecipeId, Recipe>
    var nextId: RecipeId

    ghost predicate Valid()
      reads this
    {
      ValidStore(recipes, nextId)
    }

    constructor ()
      ensures Valid() && recipes == map[] && nextId == 0
    {
      recipes := map[];
      nextId := 0;
    }

    /** The collection in storage order. */
    function Stored(): seq<Entry>
      reads this
    {
      Collect(recipes, 0, nextId)
    }

    /** The stored recipes a filter matches, by id. */
    ghost function MatchingIds(f: Filter): set<RecipeId>
      reads this
    {
      MatchingKeys(recipes, f)
    }

    /** The stored recipes a list query selects, by id. */
    ghost function Selected(q: ListQuery): set<RecipeId>
      reads this
    {
      set id | id in recipes && QueryMatches(recipes[id], q)
    }

    lemma StoredExactly()
      requires Valid()
      ensures forall e :: e in Stored() <==> e.id in recipes && recipes[e.id] == e.recipe
      ensures IdsIncreasing(Stored())
    {
      forall e: Entry | e.id in recipes && recipes[e.id] == e.recipe ensures e in Stored() {
        assert e == Entry(e.id, recipes[e.id]);
      }
      forall e | e in Stored() ensures e.id in recipes && recipes[e.id] == e.recipe {
        var i :| 0 <= i < |Stored()| && Stored()[i] == e;
      }
    }

    /** `find(filter)` returns each matching stored recipe once, so its length is `countDocuments(filter)`. */
    lemma SelectCount(f: Filter)
      requires Valid()
      ensures |Select(Stored(), f)| == |MatchingIds(f)|
    {
      StoredExactly();
      SelectCountOf(recipes, Stored(), f);
    }

    lemma SelectedIsMatching(q: ListQuery)
      ensures Selected(q) == MatchingIds(QueryFilter(q))
    {
      QueryFilterMeaning(q);
    }

    /** The listed page is in sort order and holds only stored recipes the query selects. */
    lemma PageItemsSelected(q: ListQuery, page: int, limit: int)
      requires Valid() && page >= 1 && limit >= 1
      ensures var items := PageAt(SortEntries(Select(Stored(), QueryFilter(q)), SortFieldOf(q), AscendingOf(q)), page, limit);
        && SortedBy(items, SortFieldOf(q), AscendingOf(q))
        && forall i :: 0 <= i < |items| ==> items[i].id in Selected(q) && recipes[items[i].id] == items[i].recipe
    {
      RecipeModel.MulMonotone(0, page - 1, limit);
      var skip: nat := (page - 1) * limit;
      var items := PageSlice(SortEntries(Select(Stored(), QueryFilter(q)), SortFieldOf(q), AscendingOf(q)), skip, limit);
      PageOfSortedSelection(Stored(), QueryFilter(q), SortFieldOf(q), AscendingOf(q), skip, limit);
      StoredExactly();
      forall i | 0 <= i < |items| ensures items[i].id in Selected(q) && recipes[items[i].id] == items[i].recipe {
        var e := items[i];
        assert e in Stored() && Matches(e.recipe, QueryFilter(q));
        assert QueryMatches(e.recipe, q);
      }
    }

    /** What the page `RunQuery` answers means for the query it came from. */
    lemma ListedPage(q: ListQuery, found: RecipePage)
      requires Valid() && PageOf(q) >= 1 && LimitOf(q) >= 1
      requires found.recipes == PageAt(SortEntries(Select(Stored(), QueryFilter(q)), SortFieldOf(q), AscendingOf(q)), PageOf(q), LimitOf(q))
      requires found.pagination == Paginate(PageOf(q), LimitOf(q), |MatchingIds(QueryFilter(q))|)
      ensures var page, limit := PageOf(q), LimitOf(q);
        var p, items := found.pagination, found.recipes;
        && p.currentPage == page
        && p.totalRecipes == |Selected(q)|
        && p.totalPages == CeilDiv(p.totalRecipes, limit)
        && (p.hasNextPage <==> page * limit < p.totalRecipes)
        && (p.hasPrevPage <==> page > 1)
        && items == PageAt(SortEntries(Select(Stored(), QueryFilter(q)), SortFieldOf(q), AscendingOf(q)), page, limit)
        && |items| <= limit
        && (forall i :: 0 <= i < |items| ==>
              items[i].id in Selected(q) && recipes[items[i].id] == items[i].recipe)
        && SortedBy(items, SortFieldOf(q), AscendingOf(q))
    {
      SelectedIsMatching(q);
      HasNextPageIff(PageOf(q), LimitOf(q), |MatchingIds(QueryFilter(q))|);
      PageItemsSelected(q, PageOf(q), LimitOf(q));
    }

    /** `GET /api/recipes/:id`. */
    method Get(id: RecipeId) returns (res: Result<Recipe, Error>)
      ensures res.Success? <==> id in recipes
      ensures res.Success? ==> res.value == recipes[id]
      ensures res.Failure? ==> res.error == NotFound
    {
      if id !in recipes {
        return Failure(NotFound);
      }
      res := Success(recipes[id]);
    }

    /**
     * `GET /api/recipes`. A page below 1 makes the skip negative, and a
     * sort path MongoDB does not accept (`sortBy=` or `sortBy=$x`) makes
     * the sort fail; the database refuses either query and the handler
     * answers 500.
     */
    method List(q: ListQuery) returns (res: Result<RecipePage, Error>)
      requires Valid()
      requires LimitOf(q) >= 1
      ensures res.Failure? <==> PageOf(q) < 1 || !SortPathAccepted(SortFieldOf(q))
      ensures res.Failure? ==> res.error == InternalFailure
      ensures res.Success? ==>
        var page, limit := PageOf(q), LimitOf(q);
        var p, items := res.value.pagination, res.value.recipes;
        && p.currentPage == page
        && p.totalRecipes == |Selected(q)|
        && p.totalPages == CeilDiv(p.totalRecipes, limit)
        && (p.hasNextPage <==> page * limit < p.totalRecipes)
        && (p.hasPrevPage <==> page > 1)
        && items == PageAt(SortEntries(Select(Stored(), QueryFilter(q)), SortFieldOf(q), AscendingOf(q)), page, limit)
        && |items| <= limit
        && (forall i :: 0 <= i < |items| ==>
              items[i].id in Selected(q) && recipes[items[i].id] == items[i].recipe)
        && SortedBy(items, SortFieldOf(q), AscendingOf(q))
    {
      var page := q.page.GetOr(DefaultPage);
      var limit := q.limit.GetOr(DefaultLimit);
      var sortBy := q.sortBy.GetOr(DefaultSortBy);
      var sortOrder := q.sortOrder.GetOr(DefaultSortOrder);

      var filter := BuildFilter(q);
      var ascending := sortOrder == "asc";

      var skip := (page - 1) * limit;
      if skip < 0 || !SortPathAccepted(sortBy) {
        return Failure(InternalFailure);
      }
      assert page >= 1;

      var found := RunQuery(filter, sortBy, ascending, page, limit, skip);
      res := Success(found);
      ListedPage(q, found);
    }

    /** `find(filter).sort(sort).skip(skip).limit(limit)` and `countDocuments(filter)`, summarised. */
    method RunQuery(filter: Filter, sortBy: string, ascending: bool, page: int, limit: int, skip: nat) returns (found: RecipePage)
      requires Valid() && page >= 1 && limit >= 1 && skip == (page - 1) * limit
      ensures found.recipes == PageAt(SortEntries(Select(Stored(), filter), sortBy, ascending), page, limit)
      ensures found.pagination == Paginate(page, limit, |MatchingIds(filter)|)
    {
      var matching := Select(Stored(), filter);
      var sorted := SortEntries(matching, sortBy, ascending);
      var items := PageSlice(sorted, skip, limit);
      SelectCount(filter);
      found := RecipePage(items, Paginate(page, limit, |matching|));
    }

    /** `POST /api/recipes`: the caller becomes the author whatever the body says; `save()` validates and then runs the hook. */
    method Create(caller: UserId, body: RecipeInput, now: int) returns (res: Result<Entry, Error>)
      requires Valid()
      modifies this
      ensures Valid()
      ensures var inp := Cast(body.(author := Some(caller)));
        if ConformsToSchema(inp, true) then
          && res.Success?
          && res.value.id == old(nextId) && res.value.id !in old(recipes)
          && res.value.recipe == WithAggregates(Build(inp, now))
          && recipes == old(recipes)[res.value.id := res.value.recipe]
          && nextId == old(nextId) + 1
        else
          && res == Failure(ValidationFailed(Violations(inp, true)))
          && Violations(inp, true) != []
          && recipes == old(recipes) && nextId == old(nextId)
      ensures res.Success? ==>
        res.value.recipe.content.author == caller && AggregatesConsistent(res.value.recipe)
    {
      var inp := Cast(body.(author := Some(caller)));
      ViolationsEmptyIff(inp, true);
      var violations := Violations(inp, true);
      if violations != [] {
        return Failure(ValidationFailed(violations));
      }
      CreatedPersistable(inp, now);
      var built := Build(inp, now);
      var doc := new RecipeDocument.Load(built);
      doc.PreSave();
      var id := Insert(doc.Value());
      res := Success(Entry(id, doc.Value()));
    }

    /** The collection's insert: the document is stored under the next id, which is then used up. */
    method Insert(r: Recipe) returns (id: RecipeId)
      requires Valid() && Persistable(r)
      modifies this
      ensures Valid()
      ensures id == old(nextId) && id !in old(recipes)
      ensures recipes == old(recipes)[id := r] && nextId == old(nextId) + 1
    {
      ValidStoreUpdate(recipes, nextId, nextId, r, nextId + 1);
      id := nextId;
      recipes := recipes[id := r];
      nextId := nextId + 1;
    }

    /**
     * `PUT /api/recipes/:id`: 404 before 403, then `findByIdAndUpdate` with
     * validators on the supplied paths. The hook does not run, so the
     * aggregates are whatever the stored document or the body holds. The
     * body is a set of plain path values; update operators are not modelled.
     */
    method Update(caller: UserId, id: RecipeId, body: RecipeInput) returns (res: Result<Recipe, Error>)
      requires Valid()
      modifies this
      ensures Valid() && nextId == old(nextId)
      ensures id !in old(recipes) ==> res == Failure(NotFound) && recipes == old(recipes)
      ensures id in old(recipes) && old(recipes)[id].content.author != caller ==>
        res == Failure(Forbidden) && recipes == old(recipes)
      ensures id in old(recipes) && old(recipes)[id].content.author == caller ==>
        var inp := Cast(body);
        if ConformsToSchema(inp, false) then
          res == Success(Merge(old(recipes)[id], inp)) && recipes == old(recipes)[id := res.value]
        else
          && res == Failure(ValidationFailed(Violations(inp, false)))
          && Violations(inp, false) != []
          && recipes == old(recipes)
    {
      if id !in recipes {
        return Failure(NotFound);
      }
      if recipes[id].content.author != caller {
        return Failure(Forbidden);
      }
      var inp := Cast(body);
      ViolationsEmptyIff(inp, false);
      var violations := Violations(inp, false);
      if violations != [] {
        return Failure(ValidationFailed(violations));
      }
      UpdatedPersistable(recipes[id], inp);
      var updated := Merge(recipes[id], inp);
      Replace(id, updated);
      res := Success(updated);
    }

    /** The collection's write of a document under an id it already holds. */
    method Replace(id: RecipeId, r: Recipe)
      requires Valid() && id in recipes && Persistable(r)
      modifies this
      ensures Valid()
      ensures recipes == old(recipes)[id := r] && nextId == old(nextId)
    {
      ValidStoreUpdate(recipes, nextId, id, r, nextId);
      recipes := recipes[id := r];
    }

    /** `DELETE /api/recipes/:id`: 404 before 403; only the author removes the recipe. */
    method Delete(caller: UserId, id: RecipeId) returns (res: Result<(), Error>)
      requires Valid()
      modifies this
      ensures Valid() && nextId == old(nextId)
      ensures id !in old(recipes) ==> res == Failure(NotFound) && recipes == old(recipes)
      ensures id in old(recipes) && old(recipes)[id].content.author != caller ==>
        res == Failure(Forbidden) && recipes == old(recipes)
      ensures id in old(recipes) && old(recipes)[id].content.author == caller ==>
        res == Success(()) && recipes == old(recipes) - {id}
    {
      if id !in recipes {
        return Failure(NotFound);
      }
      if recipes[id].content.author != caller {
        return Failure(Forbidden);
      }
      recipes := recipes - {id};
      res := Success(());
    }

    /**
     * `POST /api/recipes/:id/rating`. A missing score fails the required
     * validator on `save()`, and a failed save is answered with 500 here,
     * unlike create and update.
     */
    method Rate(caller: UserId, id: RecipeId, score: Option<int>, comment: Option<string>) returns (res: Result<Recipe, Error>)
      requires Valid()
      modifies this
      ensures Valid() && nextId == old(nextId)
      ensures id !in old(recipes) ==> res == Failure(NotFound) && recipes == old(recipes)
      ensures id in old(recipes) && (score.None? || !RatingAccepted(old(recipes)[id].ratings, caller, score.value, comment)) ==>
        res == Failure(InternalFailure) && recipes == old(recipes)
      ensures id in old(recipes) && score.Some? && RatingAccepted(old(recipes)[id].ratings, caller, score.value, comment) ==>
        var r := old(recipes)[id];
        && res == Success(WithAggregates(r.(ratings := UpsertRating(r.ratings, caller, score.value, comment))))
        && recipes == old(recipes)[id := res.value]
    {
      if id !in recipes {
        return Failure(NotFound);
      }
      if score.None? {
        return Failure(InternalFailure);
      }
      var saved := SaveRating(recipes[id], caller, score.value, comment);
      if saved.None? {
        return Failure(InternalFailure);
      }
      Replace(id, saved.value);
      res := Success(saved.value);
    }

    /** `GET /api/recipes/user/my-recipes`: exactly the caller's recipes, newest first. */
    method MyRecipes(caller: UserId) returns (res: seq<Entry>)
      requires Valid()
      ensures forall e :: e in res <==> e.id in recipes && recipes[e.id] == e.recipe && e.recipe.content.author == caller
      ensures forall i, j :: 0 <= i < j < |res| ==> res[i].recipe.content.createdAt >= res[j].recipe.content.createdAt
      ensures |res| == |AuthoredBy(caller)|
    {
      var byAuthor := Filter(None, None, None, Some(caller));
      var mine := Select(Stored(), byAuthor);
      res := SortEntries(mine, "createdAt", false);
      AuthorSelection(caller);
      SortKeepsMembers(mine, "createdAt", false);
      NewestFirst(res);
    }

    /** The ids of the stored recipes `caller` wrote. */
    ghost function AuthoredBy(caller: UserId): set<RecipeId>
      reads this
    {
      set id | id in recipes && recipes[id].content.author == caller
    }

    /** `find({author: caller})` returns exactly the caller's stored recipes, each once. */
    lemma AuthorSelection(caller: UserId)
      requires Valid()
      ensures var mine := Select(Stored(), Filter(None, None, None, Some(caller)));
        && (forall e :: e in mine <==> e.id in recipes && recipes[e.id] == e.recipe && e.recipe.content.author == caller)
        && |mine| == |AuthoredBy(caller)|
    {
      var byAuthor := Filter(None, None, None, Some(caller));
      StoredExactly();
      SelectCount(byAuthor);
      assert MatchingIds(byAuthor) == AuthoredBy(caller);
    }
  }

  /** The ratings the scenario below goes through. */
  lemma UpsertExamples(alice: UserId, bob: UserId)
    requires alice != bob
    ensures UpsertRating([], alice, 4, None) == [Rating(alice, 4, "")]
    ensures UpsertRating([Rating(alice, 4, "")], alice, 2, None) == [Rating(alice, 2, "")]
    ensures UpsertRating([Rating(alice, 2, "")], bob, 5, None) == [Rating(alice, 2, ""), Rating(bob, 5, "")]
    ensures UpsertRating([Rating(alice, 4, "Tasty")], alice, 2, None) == [Rating(alice, 2, "Tasty")]
    ensures UpsertRating([Rating(alice, 4, "Tasty")], alice, 2, Some("")) == [Rating(alice, 2, "Tasty")]
    ensures UpsertRating([Rating(alice, 4, "Tasty"), Rating(bob, 3, "Fine")], bob, 1, Some("Bland")) ==
      [Rating(alice, 4, "Tasty"), Rating(bob, 1, "Bland")]
  {
    TrimOfTrimmed("Bland");
    var two := [Rating(alice, 4, "Tasty"), Rating(bob, 3, "Fine")];
    assert FindRatingIndex(two, bob) == 1 by {
      assert two[1..] == [Rating(bob, 3, "Fine")];
    }
    assert FindRatingIndex([Rating(alice, 2, "")], bob) == -1 by {
      assert [Rating(alice, 2, "")][1..] == [];
    }
  }

  /**
   * On a stored recipe without ratings: a user who rates 4 and then 2
   * leaves one rating and an average of 2.0; a second user's 5 makes it
   * 3.5 over two ratings.
   */
  method RatingScenario(store: RecipeStore, id: RecipeId, alice: UserId, bob: UserId)
      returns (first: Result<Recipe, Error>, second: Result<Recipe, Error>)
    requires store.Valid() && id in store.recipes && store.recipes[id].ratings == [] && alice != bob
    modifies store
    ensures first.Success? && first.value.averageRating == 20 && first.value.ratingCount == 1
    ensures second.Success? && second.value.averageRating == 35 && second.value.ratingCount == 2
  {
    UpsertExamples(alice, bob);
    AverageExamples(alice, bob);
    var r1 := store.Rate(alice, id, Some(4), None);
    assert store.recipes[id].ratings == [Rating(alice, 4, "")];
    first := store.Rate(alice, id, Some(2), None);
    assert first.value.ratings == [Rating(alice, 2, "")];
    second := store.Rate(bob, id, Some(5), None);
    assert second.value.ratings == [Rating(alice, 2, ""), Rating(bob, 5, "")];
  }
}
