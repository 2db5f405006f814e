# Recipe sharing: a Dafny model of the recipe core

This project models the core of a recipe-sharing web application in Dafny and proves properties of the model. The application has an Express/MongoDB server and a React client. The model covers:

- **The recipe document** (`server/models/Recipe.js`). It has:
  - a schema with embedded ingredients, instructions and ratings;
  - `trim` setters that run when a value is assigned;
  - validators (required, maxlength, min/max, enum), which report every failing path;
  - `calculateAverageRating`, run by the `pre('save')` hook after validation.

  Averages are exact integers in tenths of a point: 35 stands for 3.5. The rounding follows `Math.round` (halves round up).
- **The recipe routes** (`server/routes/recipes.js`), over an in-memory collection: a `RecipeStore` class holding a map from id to recipe and an id counter. The routes are:
  - list, with category/difficulty/search filters, sorting and pagination;
  - read one;
  - create;
  - update and delete, guarded by authorship (404 is checked before 403);
  - rate, which upserts the caller's rating and re-aggregates;
  - my-recipes.

  The authenticated caller and the creation time are parameters.
- **The create-recipe form** (`client/src/pages/CreateRecipePage.jsx`). Its edit handlers write into the row objects that the form's lists share, so rows are objects. The add and remove handlers build new lists, and removing an instruction renumbers the remaining steps. The submitted payload parses the tags and numbers the steps.
- **The filter bar** (`client/src/components/recipe/SearchFilters.jsx`) and **the list page's query state and paging buttons** (`client/src/pages/RecipesPage.jsx`).

Modules, one per file:

| file | module | contents |
|---|---|---|
| `wrappers.dfy` | `Wrappers` | `Option` and `Result` |
| `text.dfy` | `Text` | JS `trim`, `length` in UTF-16 code units, `split`/`join` on one character, ASCII lower-casing, substring search |
| `recipe_schema.dfy` | `RecipeSchema` | the schema, its setters and validators, building and updating documents |
| `recipe_model.dfy` | `RecipeModel` | the aggregates and the `RecipeDocument` class (`calculateAverageRating`, pre-save, save) |
| `recipe_query.dfy` | `RecipeQuery` | storage order, filters, sort keys and sorting, paging |
| `recipe_routes.dfy` | `RecipeRoutes` | the `RecipeStore` class and the seven routes |
| `create_recipe_form.dfy` | `CreateRecipePage` | the form state class and its row classes |
| `search_filters.dfy` | `SearchFilters` | the filter bar's handlers |
| `recipes_page.dfy` | `RecipesPage` | the list page's state, its query, and the paging controls |

Three behaviours of the code worth stating:

- An update (`findByIdAndUpdate`) does not run the pre-save hook, so `averageRating` and `ratingCount` are not recomputed on update. They keep their stored values or take whatever plain value the body supplies: `averageRating` within its 0..5 validator, `ratingCount`, which has no validator, any number.
- An update may change `author` when the body supplies one; `Merge` takes the body's value.
- A rating the validators reject (a score outside 1..5, a missing score, a comment over 500 characters) is answered with 500, not 400.

## Model

| member | source | states |
|---|---|---|
| `Text.Trim` | server/models/Recipe.js:7 | the result has no whitespace at either end |
| `Text.TrimInfix` | server/models/Recipe.js:7 | the trimmed value is the input with a whitespace prefix and a whitespace suffix cut off |
| `Text.TrimAt` | server/models/Recipe.js:7 | the trimmed value reads the input's characters in order, from where the leading whitespace ends |
| `Text.TrimIdempotent` | server/models/Recipe.js:7 | trimming twice is trimming once |
| `Text.TrimEmptyIffAllSpace` | server/models/Recipe.js:55-57 | a value trims to empty exactly when it consists of whitespace only |
| `Text.TrimSurrounded` | server/models/Recipe.js:56-57 | trimming removes exactly the whitespace around a trimmed string |
| `Text.Utf16Length` | server/models/Recipe.js:57 | a string's `length` in UTF-16 code units is at least its number of characters and at most twice that |
| `Text.Utf16LengthOfBmp` | server/models/Recipe.js:57 | for characters of the Basic Multilingual Plane, `length` is the number of characters |
| `Text.LowerChar` | server/routes/recipes.js:27 | an upper-case ASCII letter becomes its lower-case letter; any other character stays as it is |
| `Text.Lower` | server/routes/recipes.js:27 | lower-casing keeps the length and lower-cases each character by itself |
| `Text.ContainsIff` | server/routes/recipes.js:27 | `Contains`, the substring scan, answers exactly whether the term occurs at some position |
| `Text.ContainsIgnoreCaseIff` | server/routes/recipes.js:27-29 | `ContainsIgnoreCase` finds the term exactly where its characters match up to ASCII case |
| `Text.Split` | client/src/pages/CreateRecipePage.jsx:94 | `split` on one character is never empty, no piece holds the separator, and the pieces join back to the input |
| `Text.SplitJoin` | client/src/components/recipe/SearchFilters.jsx:48 | splitting a `Join` of separator-free pieces gives the pieces back |
| `RecipeSchema.ParseDifficulty` | server/models/Recipe.js:82-86 | a difficulty string is accepted exactly when it is one of Easy, Medium, Hard, and names that value |
| `RecipeSchema.ParseCategory` | server/models/Recipe.js:87-91 | a category string is accepted exactly when it is one of the eight names, and names that value |
| `RecipeSchema.EnumNamesRoundTrip` | server/models/Recipe.js:84-90 | the name of every enum value parses back to that value |
| `RecipeSchema.TrimOpt` | server/models/Recipe.js:7 | a supplied path stays supplied and becomes trimmed; an absent one stays absent |
| `RecipeSchema.CastIngredients` | server/models/Recipe.js:3-17 | the setter trims each supplied ingredient name; whether a name is present, the amount and the unit are unchanged |
| `RecipeSchema.CastInstructions` | server/models/Recipe.js:19-29 | the setter trims each supplied instruction text; whether it is present and the step number are unchanged |
| `RecipeSchema.CastTags` | server/models/Recipe.js:92-95 | every tag comes out trimmed, one for each tag given |
| `RecipeSchema.CastRatings` | server/models/Recipe.js:31-47 | the setter trims each supplied rating comment; whether it is present, the user and the score are unchanged |
| `RecipeSchema.Cast` | server/models/Recipe.js:3-118 | after the setters, every supplied `trim: true` path of a body (title, description, ingredient names, instruction texts, tags, rating comments) is trimmed |
| `RecipeSchema.ViolationsEmptyIff` | server/models/Recipe.js:3-118 | `Violations`, the collected violations, are empty exactly when the body conforms to the schema table; `full` covers a save, otherwise only the supplied paths |
| `RecipeSchema.ItemsViolationsEmpty` | server/models/Recipe.js:65-66 | an array of embedded documents has no violations exactly when none of its items has one |
| `RecipeSchema.IngredientsEmptyIff` | server/models/Recipe.js:3-17 | an ingredient list has no violations exactly when every ingredient has a non-empty name, amount and unit |
| `RecipeSchema.InstructionsEmptyIff` | server/models/Recipe.js:19-29 | an instruction list has no violations exactly when every instruction has a step number and a non-empty text |
| `RecipeSchema.RatingsEmptyIff` | server/models/Recipe.js:31-47 | a rating list has no violations exactly when every rating has a user, a score in 1..5 and a comment of at most 500 UTF-16 code units |
| `RecipeSchema.AllViolationsReported` | server/routes/recipes.js:116-117 | a body missing both title and description gets a violation for each, not only the first |
| `RecipeSchema.TitleLimitAfterTrim` | server/models/Recipe.js:53-58 | the title limit of 100 UTF-16 code units applies after trimming, so surrounding whitespace never counts |
| `RecipeSchema.AstralTitleTooLong` | server/models/Recipe.js:57 | a title of sixty emoji is 120 code units, so it fails `maxlength` with exactly that one violation although it has sixty characters |
| `RecipeSchema.Utf16LengthAstral` | server/models/Recipe.js:57 | characters beyond the Basic Multilingual Plane count two code units each |
| `RecipeSchema.ToIngredients` | server/models/Recipe.js:65 | each stored ingredient is its body entry's, satisfies the sub-schema, and has a trimmed name when the entry's was |
| `RecipeSchema.ToInstructions` | server/models/Recipe.js:66 | each stored instruction is its body entry's, satisfies the sub-schema, and has a trimmed text when the entry's was |
| `RecipeSchema.ToRatings` | server/models/Recipe.js:105 | each stored rating is its body entry's (an absent comment as ''), satisfies the sub-schema, and has a trimmed comment when the entry's was |
| `RecipeSchema.Build` | server/models/Recipe.js:52-118 | a conforming body becomes a recipe that satisfies the schema. Every path is the body's value or the schema's default: difficulty Medium, image '', empty arrays and zero aggregates. The arrays hold the body's entries one for one; the author and creation time are those given; a trimmed body gives a trimmed document |
| `RecipeSchema.ToInput` | server/models/Recipe.js:52-118 | a stored recipe seen as a body supplies its title and author |
| `RecipeSchema.DocumentValidationIff` | server/models/Recipe.js:3-118 | validating a whole stored document passes exactly when it satisfies the schema |
| `RecipeSchema.BuildToInput` | server/models/Recipe.js:52-118 | a stored recipe re-read as a body conforms, and building it again gives the same recipe |
| `RecipeSchema.Merge` | server/routes/recipes.js:152-156 | an update replaces exactly the supplied paths, arrays included (entry for entry), keeps the creation time, and takes the aggregates from the body or the stored values with no recomputation |
| `RecipeSchema.MergePreservesPersistable` | server/routes/recipes.js:152-156 | an update that passes its validators keeps a stored document valid and trimmed |
| `RecipeModel.RoundHalfUpDiv` | server/models/Recipe.js:128 | the result is the nearest integer to `num / den`, with halves rounded up |
| `RecipeModel.WithAggregates` | server/models/Recipe.js:132-135 | after the hook the aggregates agree with the ratings, and the content and ratings are unchanged |
| `RecipeModel.AggregatesOfRatings` | server/models/Recipe.js:120-130 | `AverageTenths`: with no ratings the average is 0; otherwise it is the rounded mean of the scores, in tenths |
| `RecipeModel.SumScoresBounds` | server/models/Recipe.js:127 | `SumScores`: n scores in 1..5 sum to between n and 5n |
| `RecipeModel.AverageWithinScoreRange` | server/models/Recipe.js:127-128 | a non-empty set of scores in 1..5 averages between 1.0 and 5.0 |
| `RecipeModel.AverageWithinSchemaBound` | server/models/Recipe.js:106-111 | every average the hook can store meets the schema's 0..5 bound |
| `RecipeModel.WithAggregatesPersistable` | server/models/Recipe.js:132-135 | the hook keeps a valid, trimmed document valid and trimmed |
| `RecipeModel.AverageExamples` | server/models/Recipe.js:127-128 | scores 2 and 5 average 3.5; a single 2 averages 2.0 |
| `RecipeModel.RecipeDocument.CalculateAverageRating` | server/models/Recipe.js:120-130 | only the two aggregates change: the average becomes the rounded mean in tenths and the count the number of ratings, 0 and 0 with none |
| `RecipeModel.RecipeDocument.PreSave` | server/models/Recipe.js:132-135 | the hook leaves the document with consistent aggregates |
| `RecipeModel.RecipeDocument.Save` | server/models/Recipe.js:132-135 | validation runs first, on the whole document. No violations means the document satisfied the schema and the hook ran; otherwise the document is untouched |
| `RecipeQuery.Collect` | server/routes/recipes.js:39 | the collection in storage order: exactly the stored entries in the id range, in increasing id order |
| `RecipeQuery.Select` | server/routes/recipes.js:21-31 | `find(filter)` keeps exactly the entries whose recipe `Matches` the filter, and increasing ids stay increasing |
| `RecipeQuery.SelectCountOf` | server/routes/recipes.js:39-45 | from entries that list a map exactly, in increasing id order, `find` returns one entry per key whose recipe matches |
| `RecipeQuery.IncreasingIdsCount` | server/routes/recipes.js:45 | entries with increasing ids hold each id once, so their number equals the number of ids |
| `RecipeQuery.LexLeTotal` | server/routes/recipes.js:35 | string order is total |
| `RecipeQuery.LexLeTransitive` | server/routes/recipes.js:35 | string order is transitive |
| `RecipeQuery.KeyLeTotal` | server/routes/recipes.js:35 | the order of sort keys (missing, then numbers, then strings) is total |
| `RecipeQuery.KeyLeTransitive` | server/routes/recipes.js:35 | the order of sort keys is transitive |
| `RecipeQuery.SortByIdIsStorageOrder` | server/routes/recipes.js:33-35 | `SortKey` on `_id`: ascending order on it is exactly increasing storage order for distinct ids |
| `RecipeQuery.NaturalIsStorageOrder` | server/routes/recipes.js:33-35 | `SortKey` on `$natural`: storage order is sorted ascending, and a sequence sorted descending has non-increasing ids, so `{$natural: -1}` reads the collection backwards |
| `RecipeQuery.InOrderTotal` | server/routes/recipes.js:35 | any two entries can be ordered on a field, in either direction |
| `RecipeQuery.InOrderTransitive` | server/routes/recipes.js:35 | the order on a field is transitive in either direction |
| `RecipeQuery.SortPathWithoutDot` | server/routes/recipes.js:33-35 | `SortPathAccepted`: a path without a dot is accepted exactly when it is `$natural`, or non-empty and not starting with `$` |
| `RecipeQuery.SortPathAtDot` | server/routes/recipes.js:33-35 | a dotted path is accepted exactly when it is `$natural`, or its first part is acceptable and so is the rest |
| `RecipeQuery.SortPathRejected` | server/routes/recipes.js:33-35 | `sortBy=` and `sortBy=$where` name no sortable path |
| `RecipeQuery.SortPathAcceptedExamples` | server/routes/recipes.js:33-35 | `createdAt` and `$natural` are accepted |
| `RecipeQuery.NewestFirst` | server/routes/recipes.js:273 | sorting on `createdAt` descending puts newer recipes first |
| `RecipeQuery.Insert` | server/routes/recipes.js:41 | inserting into a sorted sequence keeps it sorted and adds exactly the one entry |
| `RecipeQuery.SortEntries` | server/routes/recipes.js:33-41 | the sort result is sorted on the key in the requested direction and is a permutation of its input |
| `RecipeQuery.SortKeepsMembers` | server/routes/recipes.js:41 | sorting neither adds nor drops entries |
| `RecipeQuery.StorageOrderBreaksTies` | server/routes/recipes.js:33-41 | two recipes in storage order stay in order under `$natural` ascending and are reversed descending; recipes with equal keys on any field keep storage order in either direction |
| `RecipeQuery.PageOfSortedSelection` | server/routes/recipes.js:39-43 | a page of a sorted selection is sorted and holds only matching entries of the input |
| `RecipeQuery.CeilDiv` | server/routes/recipes.js:46 | `Math.ceil(n / d)` is the least q with q * d >= n |
| `RecipeQuery.PageSlice` | server/routes/recipes.js:37-43 | skip then limit: at most `limit` consecutive entries from position `skip`, short only at the end |
| `RecipeQuery.Paginate` | server/routes/recipes.js:46-57 | the summary of a page: total pages is the ceiling, there is a next page iff page < totalPages, and a previous one iff page > 1 |
| `RecipeQuery.BelowCeilIff` | server/routes/recipes.js:46 | k is below ceil(n / d) exactly when k pages of size d hold fewer than n entries |
| `RecipeQuery.PageNonEmptyIff` | server/routes/recipes.js:37-46 | a page is non-empty exactly when it is one of the `totalPages` pages |
| `RecipeQuery.HasNextPageIff` | server/routes/recipes.js:55 | `hasNextPage` holds exactly when some matching recipe lies beyond the current page |
| `RecipeQuery.EveryEntryOnItsPage` | server/routes/recipes.js:37-46 | entry `i` is on page `i / limit + 1`, at position `i % limit`, and that page is at most `totalPages` |
| `RecipeQuery.EntryOnlyOnItsPage` | server/routes/recipes.js:37-46 | when no two entries share an id, an entry on page `p` has `p == i / limit + 1`; with `EveryEntryOnItsPage`, every entry is on exactly one page |
| `RecipeRoutes.QueryFilter` | server/routes/recipes.js:21-31 | the list filter never constrains the author |
| `RecipeRoutes.QueryFilterMeaning` | server/routes/recipes.js:21-31 | `Matches` and `MatchesSearch`: a recipe passes the list filter exactly when: empty query values constrain nothing, category and difficulty match exactly, and the search term occurs, ignoring case, in the title, the description or some tag |
| `RecipeRoutes.BuildFilter` | server/routes/recipes.js:21-31 | the filter object built one truthy query value at a time is the list filter |
| `RecipeRoutes.FindRatingIndex` | server/routes/recipes.js:231-233 | `findIndex` gives the first rating by the user, or -1 exactly when the user has not rated |
| `RecipeRoutes.UpsertShape` | server/routes/recipes.js:230-249 | `UpsertRating` and `NewComment`: the caller's first rating is overwritten in place, every other position kept; without one a rating is appended. The entry has the new score and the trimmed comment, or with no truthy comment the stored comment ('' for a new entry) |
| `RecipeRoutes.UpsertRaters` | server/routes/recipes.js:230-249 | after rating, the raters are the old raters plus the caller; the count grows only for a new rater |
| `RecipeRoutes.UpsertKeepsOneRatingPerUser` | server/routes/recipes.js:230-249 | each user still has at most one rating, and the caller's carries the new score |
| `RecipeRoutes.UpsertKeepsOthers` | server/routes/recipes.js:235-249 | ratings by other users are neither dropped nor altered, and no new rating by another user appears |
| `RecipeRoutes.UpsertIdempotent` | server/routes/recipes.js:235-249 | rating twice with the same score and comment leaves the ratings as rating once does |
| `RecipeRoutes.UpsertSchemaIff` | server/routes/recipes.js:237-251 | a valid recipe with the caller's rating upserted satisfies the schema exactly when the new entry does |
| `RecipeRoutes.UpsertRatingsOk` | server/routes/recipes.js:237-251 | over valid ratings, the upserted list is valid exactly when the written entry is |
| `RecipeRoutes.UpsertRatingsTrimmed` | server/routes/recipes.js:237-251 | over trimmed comments, the upserted list holds only trimmed comments |
| `RecipeRoutes.SaveRating` | server/routes/recipes.js:231-251 | the rating is saved exactly when the entry passes the validators, and the stored result is the upserted ratings with fresh aggregates |
| `RecipeRoutes.ValidStoreUpdate` | server/routes/recipes.js:152-156 | storing a valid document under a handed-out id keeps the store invariant |
| `RecipeRoutes.UpdatedPersistable` | server/routes/recipes.js:152-156 | a body that passes the update validators conforms, and merging it keeps a stored recipe valid and trimmed |
| `RecipeRoutes.CreatedPersistable` | server/routes/recipes.js:103-104 | a body that passes the save validators conforms, and the recipe it builds is valid and trimmed once the hook has run |
| `RecipeRoutes.RecipeStore.Insert` | server/routes/recipes.js:103-104 | the document is stored under the next id, which was free, and the counter moves on; the store stays valid |
| `RecipeRoutes.RecipeStore.Replace` | server/routes/recipes.js:152-156 | the document at the id is replaced, nothing else changes, and the store stays valid |
| `RecipeRoutes.RecipeStore.RunQuery` | server/routes/recipes.js:39-46 | the page is the requested slice of the sorted selection, and the summary counts every matching recipe |
| `RecipeRoutes.RecipeStore.ListedPage` | server/routes/recipes.js:39-57 | such a page is sorted, holds only selected stored recipes, and its summary has the counts, the ceiling and both flags |
| `RecipeRoutes.RecipeStore.StoredExactly` | server/routes/recipes.js:39 | the collection in storage order holds exactly the stored recipes, ids increasing |
| `RecipeRoutes.RecipeStore.SelectCount` | server/routes/recipes.js:39-45 | `find` returns each matching recipe once, so its length is `countDocuments` |
| `RecipeRoutes.RecipeStore.SelectedIsMatching` | server/routes/recipes.js:21-31 | the recipes a query selects are those its filter matches |
| `RecipeRoutes.RecipeStore.PageItemsSelected` | server/routes/recipes.js:39-43 | the listed page is sorted and holds only stored recipes the query selects |
| `RecipeRoutes.RecipeStore.Get` | server/routes/recipes.js:68-93 | the stored recipe for a known id, NotFound otherwise |
| `RecipeRoutes.RecipeStore.List` | server/routes/recipes.js:8-66 | defaults page 1, limit 12, `createdAt` descending. A page below 1, or a sort path MongoDB refuses (such as `sortBy=` or one starting with `$`), fails with 500. Otherwise: the page of the sorted selection at skip (page-1)*limit, at most `limit` items, all selected; total is the number selected; totalPages is the ceiling; next and previous flags as computed |
| `RecipeRoutes.RecipeStore.Create` | server/routes/recipes.js:96-130 | the caller is the author whatever the body says. A conforming body is stored under a fresh id with aggregates from the hook; otherwise it fails with every violation and nothing changes |
| `RecipeRoutes.RecipeStore.Update` | server/routes/recipes.js:133-180 | NotFound, then Forbidden for a non-author. A body passing the update validators is merged into the stored recipe; otherwise it fails with its violations and nothing changes |
| `RecipeRoutes.RecipeStore.Delete` | server/routes/recipes.js:183-215 | NotFound, then Forbidden for a non-author; otherwise exactly that recipe is removed |
| `RecipeRoutes.RecipeStore.Rate` | server/routes/recipes.js:218-266 | NotFound for an unknown id. A missing or rejected score fails with 500 and nothing changes. Otherwise the caller's rating is upserted and the aggregates recomputed |
| `RecipeRoutes.RecipeStore.MyRecipes` | server/routes/recipes.js:269-286 | exactly the caller's stored recipes, each once, newest first |
| `RecipeRoutes.RecipeStore.AuthorSelection` | server/routes/recipes.js:271 | `find({author})` returns exactly the caller's recipes, each once |
| `RecipeRoutes.UpsertExamples` | server/routes/recipes.js:235-249 | a first rating is appended, a second by the same user replaces it, and another user's is appended |
| `RecipeRoutes.RatingScenario` | server/routes/recipes.js:218-266 | one user rating 4 then 2, then another rating 5, leaves average 2.0 with count 1, then 3.5 with count 2 |
| `CreateRecipePage.CategoriesMatchSchema` | client/src/pages/CreateRecipePage.jsx:7-16 | the form offers exactly the schema's categories, in order |
| `CreateRecipePage.SetField` | client/src/pages/CreateRecipePage.jsx:41 | writing one field of an ingredient row leaves the other two as they were |
| `CreateRecipePage.IngredientRow.Set` | client/src/pages/CreateRecipePage.jsx:41 | the row object itself is changed in place, in that field only |
| `CreateRecipePage.Without` | client/src/pages/CreateRecipePage.jsx:54 | filtering out an index removes exactly that entry, and nothing when the index is out of range |
| `CreateRecipePage.WithoutShape` | client/src/pages/CreateRecipePage.jsx:54 | removing an in-range entry shortens the list by one and keeps the others in order |
| `CreateRecipePage.WithoutDistinct` | client/src/pages/CreateRecipePage.jsx:74 | removing keeps the rows distinct |
| `CreateRecipePage.RenumberedSteps` | client/src/pages/CreateRecipePage.jsx:76-79 | `Renumbered`: after renumbering, the steps are 1..n in list order and the texts are unchanged |
| `CreateRecipePage.RenumberRows` | client/src/pages/CreateRecipePage.jsx:76-79 | the copies are new, distinct row objects, one per row, holding the renumbered values |
| `CreateRecipePage.TrimKeepsAbsent` | client/src/pages/CreateRecipePage.jsx:94 | trimming never introduces a character |
| `CreateRecipePage.DropEmpty` | client/src/pages/CreateRecipePage.jsx:94 | the filter keeps only non-empty pieces of its input |
| `CreateRecipePage.DropEmptyCounts` | client/src/pages/CreateRecipePage.jsx:94 | every non-empty piece is kept as often as it occurs, and no empty one |
| `CreateRecipePage.DropEmptyConcat` | client/src/pages/CreateRecipePage.jsx:94 | the filter keeps the pieces' order: it distributes over concatenation |
| `CreateRecipePage.ParseTagsNoComma` | client/src/pages/CreateRecipePage.jsx:94 | text without a comma gives its trimmed self as the one tag, or no tag when it is blank |
| `CreateRecipePage.ParseTagsAtFirstComma` | client/src/pages/CreateRecipePage.jsx:94 | text up to its first comma gives one tag (none when blank), followed by the tags of the rest |
| `CreateRecipePage.ParsedTagsClean` | client/src/pages/CreateRecipePage.jsx:94 | `ParseTags`: no submitted tag is empty, has whitespace at an end, or holds a comma |
| `CreateRecipePage.ParseTagsJoin` | client/src/pages/CreateRecipePage.jsx:94 | clean tags joined with commas parse back to themselves |
| `CreateRecipePage.ParseTagsIdempotent` | client/src/pages/CreateRecipePage.jsx:94 | parsing the joined parsed tags gives the same tags |
| `CreateRecipePage.NumberStepsIgnoresPriorNumbers` | client/src/pages/CreateRecipePage.jsx:95-98 | `NumberSteps`: submitted steps are numbered 1..n whatever numbers the rows carried; only the texts matter |
| `CreateRecipePage.SubmittedPayload` | client/src/pages/CreateRecipePage.jsx:89-99 | the payload keeps the typed texts, parses the tags (each non-empty, trimmed, comma-free), keeps the ingredient rows, and numbers the instruction texts 1..n |
| `CreateRecipePage.RecipeForm.constructor` | client/src/pages/CreateRecipePage.jsx:21-32 | every text is empty except difficulty Medium, with one blank ingredient row and one blank instruction row |
| `CreateRecipePage.RecipeForm.HandleInputChange` | client/src/pages/CreateRecipePage.jsx:34-37 | only the named input changes; the row lists are the same |
| `CreateRecipePage.RecipeForm.HandleIngredientChange` | client/src/pages/CreateRecipePage.jsx:39-43 | only the named field of the row at the index changes, written into that row object |
| `CreateRecipePage.RecipeForm.AddIngredient` | client/src/pages/CreateRecipePage.jsx:45-50 | one blank ingredient is appended; all else is unchanged |
| `CreateRecipePage.RecipeForm.RemoveIngredient` | client/src/pages/CreateRecipePage.jsx:52-57 | the ingredient at the index is removed unless it is the only one; the list never becomes empty |
| `CreateRecipePage.RecipeForm.HandleInstructionChange` | client/src/pages/CreateRecipePage.jsx:59-63 | only the text of the row at the index changes, in that row object |
| `CreateRecipePage.RecipeForm.AddInstruction` | client/src/pages/CreateRecipePage.jsx:65-70 | one blank instruction is appended; all else is unchanged |
| `CreateRecipePage.RecipeForm.RemoveInstruction` | client/src/pages/CreateRecipePage.jsx:72-82 | unless it is the only one, the instruction at the index is removed and the rest become new rows numbered 1..n |
| `CreateRecipePage.RecipeForm.Submitted` | client/src/pages/CreateRecipePage.jsx:89-99 | the payload of the current form: its title, description, category and difficulty, its ingredient values, and one step per instruction row |
| `SearchFilters.ChoicesMatchSchema` | client/src/components/recipe/SearchFilters.jsx:4-15 | the category and difficulty selects offer exactly the schema's enum values, in order |
| `SearchFilters.HandleSearchChange` | client/src/components/recipe/SearchFilters.jsx:34-39 | only the search text changes |
| `SearchFilters.HandleFilterChange` | client/src/components/recipe/SearchFilters.jsx:41-45 | only the named key changes, to the given value |
| `SearchFilters.HandleSortChange` | client/src/components/recipe/SearchFilters.jsx:47-52 | only the sort field and direction change, and neither holds a `-` |
| `SearchFilters.ClearFilters` | client/src/components/recipe/SearchFilters.jsx:54-64 | clearing gives exactly `InitialFilters`, whatever the current state |
| `SearchFilters.SortChangeOfShownValue` | client/src/components/recipe/SearchFilters.jsx:47-52 | choosing the value the select shows changes nothing |
| `SearchFilters.SortValueOfChoice` | client/src/components/recipe/SearchFilters.jsx:47-52 | `SortValue`: a value with one `-` is what the select shows after choosing it |
| `SearchFilters.SortChoiceSplits` | client/src/components/recipe/SearchFilters.jsx:48 | a field and a direction joined by `-` split back into the two |
| `SearchFilters.SortOptionOf` | client/src/components/recipe/SearchFilters.jsx:47-52 | an option made of a sortable field and `asc` or `desc` splits into exactly its two parts, names a path MongoDB accepts and every recipe has, and the select then shows it |
| `SearchFilters.SortOptionsWellFormed` | client/src/components/recipe/SearchFilters.jsx:17-23 | every sort option splits into `asc` or `desc` and a field MongoDB accepts that every recipe has, and the select then shows it |
| `SearchFilters.OfferedFieldSorts` | client/src/components/recipe/SearchFilters.jsx:17-23 | `createdAt`, `averageRating` and `title` are accepted sort paths and every recipe has a value under them |
| `RecipesPage.HandleFiltersChange` | client/src/pages/RecipesPage.jsx:28-30 | the page state takes the bar's five values, keeps its limit and returns to page 1 |
| `RecipesPage.HandlePageChange` | client/src/pages/RecipesPage.jsx:32-35 | only the page changes |
| `RecipesPage.InitiallyInSync` | client/src/pages/RecipesPage.jsx:9-17 | the page and the bar start with the same filters |
| `RecipesPage.FilterBarKeepsSync` | client/src/pages/RecipesPage.jsx:28-30 | after the search, filter or sort handler reports, the page agrees with the bar again; after clearing, it agrees with the initial filters on page 1 |
| `RecipesPage.InitialQueryIsDefaultListing` | client/src/pages/RecipesPage.jsx:9-17 | `ToQuery`: the first request lists exactly what a request without parameters lists |
| `RecipesPage.NavigationStaysInRange` | client/src/pages/RecipesPage.jsx:75-95 | on a non-empty page, Previous is enabled iff not on page 1 and Next iff not on the last page; an enabled button leads to a non-empty page of the same result |
| `RecipesPage.ShownControlsNavigate` | client/src/pages/RecipesPage.jsx:67-75 | when the paging bar is shown, some button is enabled |

## Left out

- MongoDB, Mongoose and Express machinery: connections, `populate`, HTTP status codes as numbers, JSON bodies, middleware. An id is a natural number, so a malformed id, which would be answered with 500, does not occur.
- Authentication is a parameter (`req.user._id`). So is the creation time; `updatedAt` and the ratings' timestamps are not modelled, because no modification clock is. A sort on `updatedAt` therefore ranks every recipe equal in the model.
- `RecipeRoutes.RecipeStore.Create`: the creation time is always the `now` parameter, and the id always the next one the counter hands out. The body is spread into the new document, so in the program a `createdAt` it supplies is kept by `timestamps: true`, and an `_id` it supplies becomes the recipe's id; an `_id` already in use makes `save()` fail with a duplicate-key error, answered with 500. Neither case is modelled.
- `RecipeRoutes.RecipeStore.Update`: the body is a set of plain path values. Update operators (`$inc`, `$mul`, `$rename`, …) and dotted paths such as `ratings.0.rating` are not modelled. In the program the raw body reaches `findByIdAndUpdate`, and `runValidators` skips `$inc` and the like, so such a body can leave a stored recipe breaking the schema; every later rating of it then fails the whole-document `save()` with 500. The store invariant `ValidStore` holds only for the bodies the model expresses.
- Regular expressions: the search term is matched as a literal, ASCII case-insensitive substring. Terms with regex meta-characters are not modelled.
- Floating point: averages are exact tenths. JavaScript numbers are unbounded integers here.
- `parseInt`: page and limit arrive already as integers. On the form, the three numbers stay the text that was typed.
- Casting of wrongly typed values (a string score, an array sent where a string is expected) is not modelled.
- `RecipeSchema.Message`: Mongoose's default messages, which quote the offending value, are placeholders; only the schema's own messages and the required-path default are spelled out.
- `RecipeRoutes.RecipeStore.List`: requires a limit of at least 1. With a limit below 1, MongoDB's `limit` and `Math.ceil(total / limit)` behave in ways not modelled.
- `RecipeRoutes.RecipeStore.List`: recipes with equal sort keys are listed in storage order (increasing id), in either direction. MongoDB does not promise that order. A path the recipes do not have ranks every recipe equal, as MongoDB ranks it, so such a listing is in storage order. `$natural` is modelled as the id order, that is, as insertion order.
- `RecipeQuery.SortKey`: sorting on an array path (`tags`, `ingredients`, `instructions`, `ratings`) or on a path inside one is not modelled. MongoDB orders arrays by their least element ascending and their greatest descending; the model ranks them as missing.
- `RecipeQuery.SortPathAccepted`: only the empty-part and `$`-prefix rules for sort paths are modelled; finer field-name rules (such as a null character) are not.
- `RecipeRoutes.RecipeStore.MyRecipes`: the contract leaves the order among recipes created at the same time open. The body keeps storage order for them, which MongoDB does not promise.
- `RecipeSchema.Rating`: a rating without a comment is stored with the empty comment rather than with the comment absent.
- Concurrency: concurrent requests, and React's batching of state updates (the ingredient and instruction handlers read the rendered state, not the pending one).
- Rendering, routing, loading and error states, `toast`, `navigate` and `window.scrollTo`.
- The form's `handleSubmit` request and its error handling: only the payload it builds is modelled.
- `client/src/services/api.js` is not part of this model. `RecipesPage.ToQuery` takes each state value to be sent as a query parameter, an empty one as an empty string.
- `SearchFilters.HandleSortChange`: requires a value holding a `-`, as every option of the sort select does. What an `undefined` direction would do is not modelled.
- The registration page, seed scripts and the other routes and pages are outside the modelled core.
