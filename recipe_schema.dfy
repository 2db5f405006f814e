/**
 * The recipe document schema (server/models/Recipe.js): the stored shapes
 * of a recipe and its embedded ingredients, instructions and ratings, the
 * setters that run when a value is assigned (trim), and the validators that
 * run before a document or an update is persisted (required, maxlength,
 * min/max, enum), reported as a list of every violated rule, one per path.
 *
 * Averages are kept in tenths of a point: `averageRating` 35 stands for 3.5.
 */
module RecipeSchema {
  import opened Wrappers
  import opened Text

  /** An opaque user identity (a MongoDB ObjectId in the source). */
  type UserId = nat

  datatype Difficulty = Easy | Medium | Hard
  datatype Category = Appetizer | MainCourse | Dessert | Beverage | Soup | Salad | SideDish | Breakfast

  const DifficultyNames: seq<string> := ["Easy", "Medium", "Hard"]
  const CategoryNames: seq<string> :=
    ["Appetizer", "Main Course", "Dessert", "Beverage", "Soup", "Salad", "Side Dish", "Breakfast"]

  function DifficultyName(d: Difficulty): string {
    match d
    case Easy => "Easy"
    case Medium => "Medium"
    case Hard => "Hard"
  }

  function CategoryName(c: Category): string {
    match c
    case Appetizer => "Appetizer"
    case MainCourse => "Main Course"
    case Dessert => "Dessert"
    case Beverage => "Beverage"
    case Soup => "Soup"
    case Salad => "Salad"
    case SideDish => "Side Dish"
    case Breakfast => "Breakfast"
  }

  /** The enum value a stored string denotes; defined exactly on the schema's list. */
  function ParseDifficulty(s: string): (d: Option<Difficulty>)
    ensures d.Some? <==> s in DifficultyNames
    ensures d.Some? ==> DifficultyName(d.value) == s
  {
    if s == "Easy" then Some(Easy)
    else if s == "Medium" then Some(Medium)
    else if s == "Hard" then Some(Hard)
    else None
  }

  function ParseCategory(s: string): (c: Option<Category>)
    ensures c.Some? <==> s in CategoryNames
    ensures c.Some? ==> CategoryName(c.value) == s
  {
    if s == "Appetizer" then Some(Appetizer)
    else if s == "Main Course" then Some(MainCourse)
    else if s == "Dessert" then Some(Dessert)
    else if s == "Beverage" then Some(Beverage)
    else if s == "Soup" then Some(Soup)
    else if s == "Salad" then Some(Salad)
    else if s == "Side Dish" then Some(SideDish)
    else if s == "Breakfast" then Some(Breakfast)
    else None
  }

  lemma EnumNamesRoundTrip(d: Difficulty, c: Category)
    ensures ParseDifficulty(DifficultyName(d)) == Some(d)
    ensures ParseCategory(CategoryName(c)) == Some(c)
  {
  }

  // ---------------------------------------------------------------------
  // Stored shapes

  datatype Ingredient = Ingredient(name: string, amount: string, unit: string)
  datatype Instruction = Instruction(stepNumber: int, instruction: string)
  /** An absent comment is stored as the empty string. */
  datatype Rating = Rating(user: UserId, score: int, comment: string)

  /** Everything a recipe holds besides its ratings and their aggregates. */
  datatype RecipeContent = RecipeContent(
    title: string,
    description: string,
    ingredients: seq<Ingredient>,
    instructions: seq<Instruction>,
    prepTime: int,
    cookTime: int,
    servings: int,
    difficulty: Difficulty,
    category: Category,
    tags: seq<string>,
    image: string,
    author: UserId,
    createdAt: int)

  datatype Recipe = Recipe(
    content: RecipeContent,
    ratings: seq<Rating>,
    averageRating: int,   // tenths of a point
    ratingCount: int)

  // ---------------------------------------------------------------------
  // Incoming shapes: a request body, where every path may be missing

  datatype IngredientInput = IngredientInput(name: Option<string>, amount: Option<string>, unit: Option<string>)
  datatype InstructionInput = InstructionInput(stepNumber: Option<int>, instruction: Option<string>)
  datatype RatingInput = RatingInput(user: Option<UserId>, score: Option<int>, comment: Option<string>)

  datatype RecipeInput = RecipeInput(
    title: Option<string>,
    description: Option<string>,
    ingredients: Option<seq<IngredientInput>>,
    instructions: Option<seq<InstructionInput>>,
    prepTime: Option<int>,
    cookTime: Option<int>,
    servings: Option<int>,
    difficulty: Option<string>,
    category: Option<string>,
    tags: Option<seq<string>>,
    image: Option<string>,
    author: Option<UserId>,
    ratings: Option<seq<RatingInput>>,
    averageRating: Option<int>,   // tenths of a point
    ratingCount: Option<int>)

  // ---------------------------------------------------------------------
  // Setters: `trim: true` paths are trimmed when assigned

  function TrimOpt(v: Option<string>): (r: Option<string>)
    ensures r.Some? <==> v.Some?
    ensures r.Some? ==> IsTrimmed(r.value)
  {
    match v
    case None => None
    case Some(s) => Some(Trim(s))
  }

  /** Only an ingredient's name is trimmed. */
  function CastIngredients(xs: seq<IngredientInput>): (ys: seq<IngredientInput>)
    ensures |ys| == |xs|
    ensures forall k :: 0 <= k < |ys| ==>
      ys[k].name.Some? == xs[k].name.Some? && TrimmedOpt(ys[k].name) && ys[k].amount == xs[k].amount && ys[k].unit == xs[k].unit
  {
    seq(|xs|, k requires 0 <= k < |xs| => xs[k].(name := TrimOpt(xs[k].name)))
  }

  /** Only an instruction's text is trimmed. */
  function CastInstructions(xs: seq<InstructionInput>): (ys: seq<InstructionInput>)
    ensures |ys| == |xs|
    ensures forall k :: 0 <= k < |ys| ==>
      ys[k].instruction.Some? == xs[k].instruction.Some? && TrimmedOpt(ys[k].instruction) && ys[k].stepNumber == xs[k].stepNumber
  {
    seq(|xs|, k requires 0 <= k < |xs| => xs[k].(instruction := TrimOpt(xs[k].instruction)))
  }

  function CastTags(xs: seq<string>): (ys: seq<string>)
    ensures |ys| == |xs|
    ensures forall k :: 0 <= k < |ys| ==> IsTrimmed(ys[k])
  {
    seq(|xs|, k requires 0 <= k < |xs| => Trim(xs[k]))
  }

  /** Only a rating's comment is trimmed. */
  function CastRatings(xs: seq<RatingInput>): (ys: seq<RatingInput>)
    ensures |ys| == |xs|
    ensures forall k :: 0 <= k < |ys| ==>
      ys[k].comment.Some? == xs[k].comment.Some? && TrimmedOpt(ys[k].comment) && ys[k].user == xs[k].user && ys[k].score == xs[k].score
  {
    seq(|xs|, k requires 0 <= k < |xs| => xs[k].(comment := TrimOpt(xs[k].comment)))
  }

  /** The request body after the schema's setters have run on every supplied path. */
  function Cast(inp: RecipeInput): (c: RecipeInput)
    ensures NormalizedInput(c)
  {
    inp.(
      title := TrimOpt(inp.title),
      description := TrimOpt(inp.description),
      ingredients := if inp.ingredients.None? then None else Some(CastIngredients(inp.ingredients.value)),
      instructions := if inp.instructions.None? then None else Some(CastInstructions(inp.instructions.value)),
      tags := if inp.tags.None? then None else Some(CastTags(inp.tags.value)),
      ratings := if inp.ratings.None? then None else Some(CastRatings(inp.ratings.value)))
  }

  predicate TrimmedOpt(v: Option<string>) {
    v.Some? ==> IsTrimmed(v.value)
  }

  /** Every supplied `trim: true` path is already trimmed. */
  ghost predicate NormalizedInput(inp: RecipeInput) {
    && TrimmedOpt(inp.title)
    && TrimmedOpt(inp.description)
    && (inp.ingredients.Some? ==> forall k :: 0 <= k < |inp.ingredients.value| ==> TrimmedOpt(inp.ingredients.value[k].name))
    && (inp.instructions.Some? ==> forall k :: 0 <= k < |inp.instructions.value| ==> TrimmedOpt(inp.instructions.value[k].instruction))
    && (inp.tags.Some? ==> forall k :: 0 <= k < |inp.tags.value| ==> IsTrimmed(inp.tags.value[k]))
    && (inp.ratings.Some? ==> forall k :: 0 <= k < |inp.ratings.value| ==> TrimmedOpt(inp.ratings.value[k].comment))
  }

  // ---------------------------------------------------------------------
  // Validators

  datatype Rule = Required | MaxLength(limit: nat) | Min(low: int) | Max(high: int) | NotInEnum
  datatype Path = Field(name: string) | Item(array: string, index: nat, name: string)
  datatype Violation = Violation(path: Path, rule: Rule)

  /**
   * A string path. `full` is true when the whole document is validated (a
   * save) and false for the validators of an update, which look only at the
   * paths the update supplies. Required strings must be non-empty.
   */
  function TextCheck(path: Path, v: Option<string>, full: bool, required: bool, maxLen: Option<nat>): seq<Violation> {
    match v
    case None => if full && required then [Violation(path, Required)] else []
    case Some(s) =>
      if required && |s| == 0 then [Violation(path, Required)]
      else if maxLen.Some? && Utf16Length(s) > maxLen.value then [Violation(path, MaxLength(maxLen.value))]
      else []
  }

  function NumberCheck(path: Path, v: Option<int>, full: bool, required: bool, low: Option<int>, high: Option<int>): seq<Violation> {
    match v
    case None => if full && required then [Violation(path, Required)] else []
    case Some(n) =>
      if low.Some? && n < low.value then [Violation(path, Min(low.value))]
      else if high.Some? && n > high.value then [Violation(path, Max(high.value))]
      else []
  }

  function EnumCheck(path: Path, v: Option<string>, full: bool, required: bool, names: seq<string>): seq<Violation> {
    match v
    case None => if full && required then [Violation(path, Required)] else []
    case Some(s) =>
      if required && |s| == 0 then [Violation(path, Required)]
      else if s !in names then [Violation(path, NotInEnum)]
      else []
  }

  function IdCheck<T>(path: Path, v: Option<T>, full: bool): seq<Violation> {
    if full && v.None? then [Violation(path, Required)] else []
  }

  /** Embedded documents are always validated whole, wherever they come from. */
  function IngredientViolations(k: nat, x: IngredientInput): seq<Violation> {
    TextCheck(Item("ingredients", k, "name"), x.name, true, true, None)
    + TextCheck(Item("ingredients", k, "amount"), x.amount, true, true, None)
    + TextCheck(Item("ingredients", k, "unit"), x.unit, true, true, None)
  }

  function InstructionViolations(k: nat, x: InstructionInput): seq<Violation> {
    NumberCheck(Item("instructions", k, "stepNumber"), x.stepNumber, true, true, None, None)
    + TextCheck(Item("instructions", k, "instruction"), x.instruction, true, true, None)
  }

  function RatingViolations(k: nat, x: RatingInput): seq<Violation> {
    IdCheck(Item("ratings", k, "user"), x.user, true)
    + NumberCheck(Item("ratings", k, "rating"), x.score, true, true, Some(1), Some(5))
    + TextCheck(Item("ratings", k, "comment"), x.comment, true, false, Some(500))
  }

  function ItemsViolations<T>(xs: seq<T>, from: nat, check: (nat, T) -> seq<Violation>): seq<Violation>
    decreases |xs|
  {
    if xs == [] then [] else check(from, xs[0]) + ItemsViolations(xs[1..], from + 1, check)
  }

  function OptItemsViolations<T>(xs: Option<seq<T>>, check: (nat, T) -> seq<Violation>): seq<Violation> {
    if xs.None? then [] else ItemsViolations(xs.value, 0, check)
  }

  /** Every rule the (already cast) input breaks, in schema order, at most one per path. */
  function Violations(inp: RecipeInput, full: bool): seq<Violation> {
    TextCheck(Field("title"), inp.title, full, true, Some(100))
    + TextCheck(Field("description"), inp.description, full, true, Some(500))
    + OptItemsViolations(inp.ingredients, IngredientViolations)
    + OptItemsViolations(inp.instructions, InstructionViolations)
    + NumberCheck(Field("prepTime"), inp.prepTime, full, true, Some(1), None)
    + NumberCheck(Field("cookTime"), inp.cookTime, full, true, Some(1), None)
    + NumberCheck(Field("servings"), inp.servings, full, true, Some(1), None)
    + EnumCheck(Field("difficulty"), inp.difficulty, full, false, DifficultyNames)
    + EnumCheck(Field("category"), inp.category, full, true, CategoryNames)
    + IdCheck(Field("author"), inp.author, full)
    + OptItemsViolations(inp.ratings, RatingViolations)
    + NumberCheck(Field("averageRating"), inp.averageRating, full, false, Some(0), Some(50))
  }

  /**
   * The message a rejection lists for a violation (the `errors` of the 400
   * answer): the schema's own text where it states one, Mongoose's default
   * for a required path without one, and otherwise a placeholder for
   * Mongoose's default templates, which quote the offending value.
   */
  function Message(v: Violation): string {
    match v
    case Violation(Field("title"), Required) => "Recipe title is required"
    case Violation(Field("title"), MaxLength(_)) => "Title cannot exceed 100 characters"
    case Violation(Field("description"), Required) => "Recipe description is required"
    case Violation(Field("description"), MaxLength(_)) => "Description cannot exceed 500 characters"
    case Violation(Field("prepTime"), Required) => "Preparation time is required"
    case Violation(Field("prepTime"), Min(_)) => "Prep time must be at least 1 minute"
    case Violation(Field("cookTime"), Required) => "Cooking time is required"
    case Violation(Field("cookTime"), Min(_)) => "Cook time must be at least 1 minute"
    case Violation(Field("servings"), Required) => "Number of servings is required"
    case Violation(Field("servings"), Min(_)) => "Must serve at least 1 person"
    case Violation(Field("category"), Required) => "Recipe category is required"
    case Violation(Item(_, _, "comment"), MaxLength(_)) => "Comment cannot exceed 500 characters"
    case Violation(Item(_, _, name), Required) => "Path `" + name + "` is required."
    case Violation(Field(name), Required) => "Path `" + name + "` is required."
    case _ => "Validator failed for path"
  }

  // ---------------------------------------------------------------------
  // The validation table, stated directly

  ghost predicate IngredientConforms(x: IngredientInput) {
    && x.name.Some? && |x.name.value| > 0
    && x.amount.Some? && |x.amount.value| > 0
    && x.unit.Some? && |x.unit.value| > 0
  }

  ghost predicate InstructionConforms(x: InstructionInput) {
    x.stepNumber.Some? && x.instruction.Some? && |x.instruction.value| > 0
  }

  ghost predicate RatingConforms(x: RatingInput) {
    && x.user.Some?
    && x.score.Some? && 1 <= x.score.value <= 5
    && (x.comment.Some? ==> Utf16Length(x.comment.value) <= 500)
  }

  /**
   * The schema's rules for an input: with `full`, every required path is
   * present; every supplied path meets its bounds and its enum.
   */
  ghost predicate ConformsToSchema(inp: RecipeInput, full: bool) {
    && (full ==> inp.title.Some? && inp.description.Some? && inp.prepTime.Some? && inp.cookTime.Some?
                 && inp.servings.Some? && inp.category.Some? && inp.author.Some?)
    && (inp.title.Some? ==> |inp.title.value| >= 1 && Utf16Length(inp.title.value) <= 100)
    && (inp.description.Some? ==> |inp.description.value| >= 1 && Utf16Length(inp.description.value) <= 500)
    && (inp.ingredients.Some? ==> forall k :: 0 <= k < |inp.ingredients.value| ==> IngredientConforms(inp.ingredients.value[k]))
    && (inp.instructions.Some? ==> forall k :: 0 <= k < |inp.instructions.value| ==> InstructionConforms(inp.instructions.value[k]))
    && (inp.prepTime.Some? ==> inp.prepTime.value >= 1)
    && (inp.cookTime.Some? ==> inp.cookTime.value >= 1)
    && (inp.servings.Some? ==> inp.servings.value >= 1)
    && (inp.difficulty.Some? ==> inp.difficulty.value in DifficultyNames)
    && (inp.category.Some? ==> inp.category.value in CategoryNames)
    && (inp.ratings.Some? ==> forall k :: 0 <= k < |inp.ratings.value| ==> RatingConforms(inp.ratings.value[k]))
    && (inp.averageRating.Some? ==> 0 <= inp.averageRating.value <= 50)
  }

  lemma {:induction false} ItemsViolationsEmpty<T>(xs: seq<T>, from: nat, check: (nat, T) -> seq<Violation>)
    ensures ItemsViolations(xs, from, check) == [] <==> forall k :: 0 <= k < |xs| ==> check(from + k, xs[k]) == []
    decreases |xs|
  {
    if xs != [] {
      ItemsViolationsEmpty(xs[1..], from + 1, check);
      assert forall k :: 1 <= k < |xs| ==> xs[1..][k - 1] == xs[k];
    }
  }

  lemma TextCheckEmpty(path: Path, v: Option<string>, full: bool, required: bool, maxLen: Option<nat>)
    ensures TextCheck(path, v, full, required, maxLen) == [] <==>
      (v.None? ==> !(full && required))
      && (v.Some? ==> (required ==> |v.value| > 0) && (maxLen.Some? ==> Utf16Length(v.value) <= maxLen.value))
  {
  }

  lemma NumberCheckEmpty(path: Path, v: Option<int>, full: bool, required: bool, low: Option<int>, high: Option<int>)
    ensures NumberCheck(path, v, full, required, low, high) == [] <==>
      (v.None? ==> !(full && required))
      && (v.Some? ==> (low.Some? ==> v.value >= low.value) && (high.Some? ==> v.value <= high.value))
  {
  }

  lemma EnumCheckEmpty(path: Path, v: Option<string>, full: bool, required: bool, names: seq<string>)
    requires "" !in names
    ensures EnumCheck(path, v, full, required, names) == [] <==>
      (v.None? ==> !(full && required)) && (v.Some? ==> v.value in names)
  {
  }

  lemma OptItemsEmpty<T>(xs: Option<seq<T>>, check: (nat, T) -> seq<Violation>)
    ensures OptItemsViolations(xs, check) == [] <==>
      (xs.Some? ==> forall k :: 0 <= k < |xs.value| ==> check(k, xs.value[k]) == [])
  {
    if xs.Some? {
      ItemsViolationsEmpty(xs.value, 0, check);
    }
  }

  /** The ingredient list has no violations exactly when every supplied ingredient meets its sub-schema. */
  lemma IngredientsEmptyIff(xs: Option<seq<IngredientInput>>)
    ensures OptItemsViolations(xs, IngredientViolations) == [] <==>
      (xs.Some? ==> forall k :: 0 <= k < |xs.value| ==> IngredientConforms(xs.value[k]))
  {
    OptItemsEmpty(xs, IngredientViolations);
  }

  /** The same for the instruction list. */
  lemma InstructionsEmptyIff(xs: Option<seq<InstructionInput>>)
    ensures OptItemsViolations(xs, InstructionViolations) == [] <==>
      (xs.Some? ==> forall k :: 0 <= k < |xs.value| ==> InstructionConforms(xs.value[k]))
  {
    OptItemsEmpty(xs, InstructionViolations);
  }

  /** The same for the rating list. */
  lemma RatingsEmptyIff(xs: Option<seq<RatingInput>>)
    ensures OptItemsViolations(xs, RatingViolations) == [] <==>
      (xs.Some? ==> forall k :: 0 <= k < |xs.value| ==> RatingConforms(xs.value[k]))
  {
    OptItemsEmpty(xs, RatingViolations);
  }

  /** Twelve lists concatenate to the empty list exactly when each is empty. */
  lemma ConcatEmpty<T>(p1: seq<T>, p2: seq<T>, p3: seq<T>, p4: seq<T>, p5: seq<T>, p6: seq<T>,
                       p7: seq<T>, p8: seq<T>, p9: seq<T>, p10: seq<T>, p11: seq<T>, p12: seq<T>)
    ensures p1 + p2 + p3 + p4 + p5 + p6 + p7 + p8 + p9 + p10 + p11 + p12 == [] <==>
      p1 == [] && p2 == [] && p3 == [] && p4 == [] && p5 == [] && p6 == []
      && p7 == [] && p8 == [] && p9 == [] && p10 == [] && p11 == [] && p12 == []
  {
    assert |p1 + p2 + p3 + p4 + p5 + p6 + p7 + p8 + p9 + p10 + p11 + p12|
      == |p1| + |p2| + |p3| + |p4| + |p5| + |p6| + |p7| + |p8| + |p9| + |p10| + |p11| + |p12|;
  }

  /** The collected list is empty exactly when the input conforms to the table. */
  lemma ViolationsEmptyIff(inp: RecipeInput, full: bool)
    ensures Violations(inp, full) == [] <==> ConformsToSchema(inp, full)
  {
    ConcatEmpty(
      TextCheck(Field("title"), inp.title, full, true, Some(100)),
      TextCheck(Field("description"), inp.description, full, true, Some(500)),
      OptItemsViolations(inp.ingredients, IngredientViolations),
      OptItemsViolations(inp.instructions, InstructionViolations),
      NumberCheck(Field("prepTime"), inp.prepTime, full, true, Some(1), None),
      NumberCheck(Field("cookTime"), inp.cookTime, full, true, Some(1), None),
      NumberCheck(Field("servings"), inp.servings, full, true, Some(1), None),
      EnumCheck(Field("difficulty"), inp.difficulty, full, false, DifficultyNames),
      EnumCheck(Field("category"), inp.category, full, true, CategoryNames),
      IdCheck(Field("author"), inp.author, full),
      OptItemsViolations(inp.ratings, RatingViolations),
      NumberCheck(Field("averageRating"), inp.averageRating, full, false, Some(0), Some(50)));
    TextCheckEmpty(Field("title"), inp.title, full, true, Some(100));
    TextCheckEmpty(Field("description"), inp.description, full, true, Some(500));
    NumberCheckEmpty(Field("prepTime"), inp.prepTime, full, true, Some(1), None);
    NumberCheckEmpty(Field("cookTime"), inp.cookTime, full, true, Some(1), None);
    NumberCheckEmpty(Field("servings"), inp.servings, full, true, Some(1), None);
    NumberCheckEmpty(Field("averageRating"), inp.averageRating, full, false, Some(0), Some(50));
    EnumCheckEmpty(Field("difficulty"), inp.difficulty, full, false, DifficultyNames);
    EnumCheckEmpty(Field("category"), inp.category, full, true, CategoryNames);
    IngredientsEmptyIff(inp.ingredients);
    InstructionsEmptyIff(inp.instructions);
    RatingsEmptyIff(inp.ratings);
  }

  /** Validation reports every failing path, not only the first: a body missing both title and description gets both messages. */
  lemma AllViolationsReported(inp: RecipeInput)
    requires inp.title.None? && inp.description.None?
    ensures Violation(Field("title"), Required) in Violations(inp, true)
    ensures Violation(Field("description"), Required) in Violations(inp, true)
  {
  }

  /** The length limits apply to the trimmed value: surrounding whitespace never counts. */
  lemma TitleLimitAfterTrim(title: string, lead: string, trail: string)
    requires AllSpace(lead) && AllSpace(trail)
    requires IsTrimmed(title) && |title| >= 1 && Utf16Length(title) <= 100
    ensures TextCheck(Field("title"), TrimOpt(Some(lead + title + trail)), true, true, Some(100)) == []
  {
    TrimSurrounded(lead, title, trail);
  }

  /**
   * `maxlength` counts UTF-16 code units: sixty emoji are 120 units, so
   * they make too long a title although they are only sixty characters.
   */
  lemma AstralTitleTooLong()
    ensures var title := seq(60, _ => '\U{1F600}');
      |title| == 60 && TextCheck(Field("title"), Some(title), true, true, Some(100)) == [Violation(Field("title"), MaxLength(100))]
  {
    var title := seq(60, _ => '\U{1F600}');
    assert Utf16Length(title) == 2 * |title| by { Utf16LengthAstral(title); }
  }

  lemma {:induction false} Utf16LengthAstral(s: string)
    requires forall i :: 0 <= i < |s| ==> s[i] as int > 0xFFFF
    ensures Utf16Length(s) == 2 * |s|
    decreases |s|
  {
    if s != [] {
      Utf16LengthAstral(s[1..]);
    }
  }

  // ---------------------------------------------------------------------
  // Stored documents

  ghost predicate IngredientOk(i: Ingredient) {
    |i.name| > 0 && |i.amount| > 0 && |i.unit| > 0
  }

  ghost predicate InstructionOk(i: Instruction) {
    |i.instruction| > 0
  }

  ghost predicate RatingOk(r: Rating) {
    1 <= r.score <= 5 && Utf16Length(r.comment) <= 500
  }

  /** A stored recipe meets every validator of the schema. */
  ghost predicate SatisfiesSchema(r: Recipe) {
    var c := r.content;
    && |c.title| >= 1 && Utf16Length(c.title) <= 100
    && |c.description| >= 1 && Utf16Length(c.description) <= 500
    && (forall k :: 0 <= k < |c.ingredients| ==> IngredientOk(c.ingredients[k]))
    && (forall k :: 0 <= k < |c.instructions| ==> InstructionOk(c.instructions[k]))
    && c.prepTime >= 1 && c.cookTime >= 1 && c.servings >= 1
    && (forall k :: 0 <= k < |r.ratings| ==> RatingOk(r.ratings[k]))
    && 0 <= r.averageRating <= 50
  }

  /** Every `trim: true` path of a stored recipe holds a trimmed string. */
  ghost predicate Normalized(r: Recipe) {
    var c := r.content;
    && IsTrimmed(c.title) && IsTrimmed(c.description)
    && (forall k :: 0 <= k < |c.ingredients| ==> IsTrimmed(c.ingredients[k].name))
    && (forall k :: 0 <= k < |c.instructions| ==> IsTrimmed(c.instructions[k].instruction))
    && (forall k :: 0 <= k < |c.tags| ==> IsTrimmed(c.tags[k]))
    && (forall k :: 0 <= k < |r.ratings| ==> IsTrimmed(r.ratings[k].comment))
  }

  /** The invariant of every document in the collection. */
  ghost predicate Persistable(r: Recipe) {
    SatisfiesSchema(r) && Normalized(r)
  }

  function ToIngredient(x: IngredientInput): Ingredient
    requires IngredientConforms(x)
  {
    Ingredient(x.name.value, x.amount.value, x.unit.value)
  }

  function ToInstruction(x: InstructionInput): Instruction
    requires InstructionConforms(x)
  {
    Instruction(x.stepNumber.value, x.instruction.value)
  }

  function ToRating(x: RatingInput): Rating
    requires RatingConforms(x)
  {
    Rating(x.user.value, x.score.value, x.comment.GetOr(""))
  }

  /** The stored ingredients of a conforming list, one for each input entry. */
  function ToIngredients(xs: seq<IngredientInput>): (ys: seq<Ingredient>)
    requires forall k :: 0 <= k < |xs| ==> IngredientConforms(xs[k])
    ensures |ys| == |xs| && forall k :: 0 <= k < |ys| ==> ys[k] == ToIngredient(xs[k]) && IngredientOk(ys[k])
    ensures (forall k :: 0 <= k < |xs| ==> TrimmedOpt(xs[k].name)) ==> forall k :: 0 <= k < |ys| ==> IsTrimmed(ys[k].name)
  {
    var ys := seq(|xs|, k requires 0 <= k < |xs| => ToIngredient(xs[k]));
    assert forall k :: 0 <= k < |ys| ==> ys[k] == ToIngredient(xs[k]) && IngredientOk(ys[k]) && (TrimmedOpt(xs[k].name) ==> IsTrimmed(ys[k].name)) by {
      forall k | 0 <= k < |ys| ensures ys[k] == ToIngredient(xs[k]) && IngredientOk(ys[k]) && (TrimmedOpt(xs[k].name) ==> IsTrimmed(ys[k].name)) {
        assert IngredientConforms(xs[k]);
      }
    }
    ys
  }

  /** The stored instructions of a conforming list. */
  function ToInstructions(xs: seq<InstructionInput>): (ys: seq<Instruction>)
    requires forall k :: 0 <= k < |xs| ==> InstructionConforms(xs[k])
    ensures |ys| == |xs| && forall k :: 0 <= k < |ys| ==> ys[k] == ToInstruction(xs[k]) && InstructionOk(ys[k])
    ensures (forall k :: 0 <= k < |xs| ==> TrimmedOpt(xs[k].instruction)) ==> forall k :: 0 <= k < |ys| ==> IsTrimmed(ys[k].instruction)
  {
    var ys := seq(|xs|, k requires 0 <= k < |xs| => ToInstruction(xs[k]));
    assert forall k :: 0 <= k < |ys| ==> ys[k] == ToInstruction(xs[k]) && InstructionOk(ys[k]) && (TrimmedOpt(xs[k].instruction) ==> IsTrimmed(ys[k].instruction)) by {
      forall k | 0 <= k < |ys| ensures ys[k] == ToInstruction(xs[k]) && InstructionOk(ys[k]) && (TrimmedOpt(xs[k].instruction) ==> IsTrimmed(ys[k].instruction)) {
        assert InstructionConforms(xs[k]);
      }
    }
    ys
  }

  /** The stored ratings of a conforming list; an absent comment is stored as ''. */
  function ToRatings(xs: seq<RatingInput>): (ys: seq<Rating>)
    requires forall k :: 0 <= k < |xs| ==> RatingConforms(xs[k])
    ensures |ys| == |xs| && forall k :: 0 <= k < |ys| ==> ys[k] == ToRating(xs[k]) && RatingOk(ys[k])
    ensures (forall k :: 0 <= k < |xs| ==> TrimmedOpt(xs[k].comment)) ==> forall k :: 0 <= k < |ys| ==> IsTrimmed(ys[k].comment)
  {
    var ys := seq(|xs|, k requires 0 <= k < |xs| => ToRating(xs[k]));
    assert forall k :: 0 <= k < |ys| ==> ys[k] == ToRating(xs[k]) && RatingOk(ys[k]) && (TrimmedOpt(xs[k].comment) ==> IsTrimmed(ys[k].comment)) by {
      forall k | 0 <= k < |ys| ensures ys[k] == ToRating(xs[k]) && RatingOk(ys[k]) && (TrimmedOpt(xs[k].comment) ==> IsTrimmed(ys[k].comment)) {
        assert RatingConforms(xs[k]);
      }
    }
    ys
  }

  /**
   * The document a conforming body creates, with the schema's defaults for
   * absent paths: difficulty Medium, image '', empty arrays, averageRating
   * and ratingCount 0.
   */
  function Build(inp: RecipeInput, createdAt: int): (r: Recipe)
    requires ConformsToSchema(inp, true)
    ensures SatisfiesSchema(r)
    ensures NormalizedInput(inp) ==> Normalized(r)
    ensures r.content.title == inp.title.value && r.content.description == inp.description.value
    ensures r.content.author == inp.author.value && r.content.createdAt == createdAt
    ensures r.content.difficulty == (if inp.difficulty.None? then Medium else ParseDifficulty(inp.difficulty.value).value)
    ensures CategoryName(r.content.category) == inp.category.value
    ensures r.content.prepTime == inp.prepTime.value && r.content.cookTime == inp.cookTime.value
    ensures r.content.servings == inp.servings.value
    ensures r.content.tags == inp.tags.GetOr([]) && r.content.image == inp.image.GetOr("")
    ensures r.content.ingredients == ToIngredients(inp.ingredients.GetOr([]))
    ensures r.content.instructions == ToInstructions(inp.instructions.GetOr([]))
    ensures r.ratings == ToRatings(inp.ratings.GetOr([]))
    ensures r.averageRating == inp.averageRating.GetOr(0) && r.ratingCount == inp.ratingCount.GetOr(0)
  {
    var ings := inp.ingredients.GetOr([]);
    var ins := inp.instructions.GetOr([]);
    var rs := inp.ratings.GetOr([]);
    Recipe(
      RecipeContent(
        inp.title.value,
        inp.description.value,
        ToIngredients(ings),
        ToInstructions(ins),
        inp.prepTime.value,
        inp.cookTime.value,
        inp.servings.value,
        if inp.difficulty.None? then Medium else ParseDifficulty(inp.difficulty.value).value,
        ParseCategory(inp.category.value).value,
        inp.tags.GetOr([]),
        inp.image.GetOr(""),
        inp.author.value,
        createdAt),
      ToRatings(rs),
      inp.averageRating.GetOr(0),
      inp.ratingCount.GetOr(0))
  }

  /** A stored recipe seen as a body that supplies every path. */
  function ToInput(r: Recipe): (inp: RecipeInput)
    ensures inp.title == Some(r.content.title) && inp.author == Some(r.content.author)
  {
    var c := r.content;
    RecipeInput(
      Some(c.title),
      Some(c.description),
      Some(seq(|c.ingredients|, k requires 0 <= k < |c.ingredients| =>
        var i := c.ingredients[k]; IngredientInput(Some(i.name), Some(i.amount), Some(i.unit)))),
      Some(seq(|c.instructions|, k requires 0 <= k < |c.instructions| =>
        var i := c.instructions[k]; InstructionInput(Some(i.stepNumber), Some(i.instruction)))),
      Some(c.prepTime),
      Some(c.cookTime),
      Some(c.servings),
      Some(DifficultyName(c.difficulty)),
      Some(CategoryName(c.category)),
      Some(c.tags),
      Some(c.image),
      Some(c.author),
      Some(seq(|r.ratings|, k requires 0 <= k < |r.ratings| =>
        var x := r.ratings[k]; RatingInput(Some(x.user), Some(x.score), Some(x.comment)))),
      Some(r.averageRating),
      Some(r.ratingCount))
  }

  /** Whole-document validation, as `save()` runs it: a stored value passes exactly when it satisfies the schema. */
  lemma DocumentValidationIff(r: Recipe)
    ensures Violations(ToInput(r), true) == [] <==> SatisfiesSchema(r)
  {
    var inp := ToInput(r);
    var c := r.content;
    ViolationsEmptyIff(inp, true);
    EnumNamesRoundTrip(c.difficulty, c.category);
    forall k | 0 <= k < |c.ingredients|
      ensures IngredientConforms(inp.ingredients.value[k]) <==> IngredientOk(c.ingredients[k])
    {
    }
    forall k | 0 <= k < |c.instructions|
      ensures InstructionConforms(inp.instructions.value[k]) <==> InstructionOk(c.instructions[k])
    {
    }
    forall k | 0 <= k < |r.ratings|
      ensures RatingConforms(inp.ratings.value[k]) <==> RatingOk(r.ratings[k])
    {
    }
  }

  /** Loading a stored recipe and building it again gives the same recipe. */
  lemma BuildToInput(r: Recipe)
    requires SatisfiesSchema(r)
    ensures ConformsToSchema(ToInput(r), true)
    ensures Build(ToInput(r), r.content.createdAt) == r
  {
    EnumNamesRoundTrip(r.content.difficulty, r.content.category);
    var b := Build(ToInput(r), r.content.createdAt);
    assert b.content.ingredients == r.content.ingredients;
    assert b.content.instructions == r.content.instructions;
    assert b.ratings == r.ratings;
  }

  /**
   * What `findByIdAndUpdate` stores: every path the update supplies
   * replaces the stored one, every other path is kept. The pre-save hook
   * does not run, so the aggregates are not recomputed.
   */
  function Merge(r: Recipe, inp: RecipeInput): (m: Recipe)
    requires ConformsToSchema(inp, false)
    ensures m.content.title == inp.title.GetOr(r.content.title)
    ensures m.content.description == inp.description.GetOr(r.content.description)
    ensures m.content.prepTime == inp.prepTime.GetOr(r.content.prepTime)
    ensures m.content.cookTime == inp.cookTime.GetOr(r.content.cookTime)
    ensures m.content.servings == inp.servings.GetOr(r.content.servings)
    ensures inp.difficulty.None? ==> m.content.difficulty == r.content.difficulty
    ensures inp.difficulty.Some? ==> DifficultyName(m.content.difficulty) == inp.difficulty.value
    ensures inp.category.None? ==> m.content.category == r.content.category
    ensures inp.category.Some? ==> CategoryName(m.content.category) == inp.category.value
    ensures m.content.tags == inp.tags.GetOr(r.content.tags)
    ensures m.content.image == inp.image.GetOr(r.content.image)
    ensures m.content.author == inp.author.GetOr(r.content.author)
    ensures m.content.createdAt == r.content.createdAt
    ensures inp.ingredients.None? ==> m.content.ingredients == r.content.ingredients
    ensures inp.instructions.None? ==> m.content.instructions == r.content.instructions
    ensures inp.ratings.None? ==> m.ratings == r.ratings
    ensures inp.ingredients.Some? ==> m.content.ingredients == ToIngredients(inp.ingredients.value)
    ensures inp.instructions.Some? ==> m.content.instructions == ToInstructions(inp.instructions.value)
    ensures inp.ratings.Some? ==> m.ratings == ToRatings(inp.ratings.value)
    ensures m.averageRating == inp.averageRating.GetOr(r.averageRating)
    ensures m.ratingCount == inp.ratingCount.GetOr(r.ratingCount)
  {
    var c := r.content;
    Recipe(
      RecipeContent(
        inp.title.GetOr(c.title),
        inp.description.GetOr(c.description),
        if inp.ingredients.None? then c.ingredients else ToIngredients(inp.ingredients.value),
        if inp.instructions.None? then c.instructions else ToInstructions(inp.instructions.value),
        inp.prepTime.GetOr(c.prepTime),
        inp.cookTime.GetOr(c.cookTime),
        inp.servings.GetOr(c.servings),
        if inp.difficulty.None? then c.difficulty else ParseDifficulty(inp.difficulty.value).value,
        if inp.category.None? then c.category else ParseCategory(inp.category.value).value,
        inp.tags.GetOr(c.tags),
        inp.image.GetOr(c.image),
        inp.author.GetOr(c.author),
        c.createdAt),
      if inp.ratings.None? then r.ratings else ToRatings(inp.ratings.value),
      inp.averageRating.GetOr(r.averageRating),
      inp.ratingCount.GetOr(r.ratingCount))
  }

  /** An update that passes its validators keeps a persistable document persistable. */
  lemma MergePreservesPersistable(r: Recipe, inp: RecipeInput)
    requires ConformsToSchema(inp, false) && NormalizedInput(inp)
    requires Persistable(r)
    ensures Persistable(Merge(r, inp))
  {
    var m := Merge(r, inp);
    assert SatisfiesSchema(m);
    assert Normalized(m);
  }
}
