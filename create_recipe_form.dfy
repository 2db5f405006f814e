/**
 * The state of the create-recipe form (client/src/pages/CreateRecipePage.jsx
 * lines 21-99). The list handlers copy the lists, but the edit handlers
 * write into the row objects the lists share, so rows are objects here and
 * the form holds sequences of them.
 */
module CreateRecipePage {
  import opened Wrappers
  import opened Text
  import RecipeSchema

  /** The category choices of the form's select. */
  const Categories: seq<string> :=
    ["Appetizer", "Main Course", "Dessert", "Beverage", "Soup", "Salad", "Side Dish", "Breakfast"]

  /** The select offers exactly the categories the schema accepts, in the same order. */
  lemma CategoriesMatchSchema()
    ensures Categories == RecipeSchema.CategoryNames
  {
  }

  // ---------------------------------------------------------------------
  // Rows

  datatype IngredientFields = IngredientFields(name: string, amount: string, unit: string)
  datatype IngredientField = Name | Amount | Unit

  function GetField(x: IngredientFields, f: IngredientField): string {
    match f
    case Name => x.name
    case Amount => x.amount
    case Unit => x.unit
  }

  /** `row[field] = value`: the named field takes the value, the other two keep theirs. */
  function SetField(x: IngredientFields, f: IngredientField, v: string): (y: IngredientFields)
    ensures GetField(y, f) == v
    ensures forall g :: g != f ==> GetField(y, g) == GetField(x, g)
  {
    match f
    case Name => x.(name := v)
    case Amount => x.(amount := v)
    case Unit => x.(unit := v)
  }

  const BlankIngredient := IngredientFields("", "", "")

  /** An instruction row; rows created by the form carry no step number until they are renumbered. */
  datatype InstructionFields = InstructionFields(instruction: string, stepNumber: Option<int>)

  const BlankInstruction := InstructionFields("", None)

  class IngredientRow {
    var name: string
    var amount: string
    var unit: string

    function Fields(): IngredientFields
      reads this
    {
      IngredientFields(name, amount, unit)
    }

    constructor Blank()
      ensures Fields() == BlankIngredient
    {
      name, amount, unit := "", "", "";
    }

    method Set(f: IngredientField, v: string)
      modifies this
      ensures Fields() == SetField(old(Fields()), f, v)
    {
      match f
      case Name => name := v;
      case Amount => amount := v;
      case Unit => unit := v;
    }
  }

  class InstructionRow {
    var instruction: string
    var stepNumber: Option<int>

    function Fields(): InstructionFields
      reads this
    {
      InstructionFields(instruction, stepNumber)
    }

    constructor Blank()
      ensures Fields() == BlankInstruction
    {
      instruction, stepNumber := "", None;
    }

    /** `{ ...inst, stepNumber: n }`. */
    constructor Numbered(text: string, n: int)
      ensures Fields() == InstructionFields(text, Some(n))
    {
      instruction, stepNumber := text, Some(n);
    }
  }

  function IngredientValues(rows: seq<IngredientRow>): seq<IngredientFields>
    reads rows
  {
    seq(|rows|, i reads rows requires 0 <= i < |rows| => rows[i].Fields())
  }

  function InstructionValues(rows: seq<InstructionRow>): seq<InstructionFields>
    reads rows
  {
    seq(|rows|, i reads rows requires 0 <= i < |rows| => rows[i].Fields())
  }

  predicate Distinct<T(==)>(xs: seq<T>) {
    forall i, j :: 0 <= i < j < |xs| ==> xs[i] != xs[j]
  }

  // ---------------------------------------------------------------------
  // List operations

  /** `xs.filter((_, i) => i !== index)`: the entry at `index` removed, nothing removed for an index out of range. */
  function Without<T>(xs: seq<T>, index: int): (ys: seq<T>)
    ensures 0 <= index < |xs| ==> ys == xs[..index] + xs[index + 1..]
    ensures !(0 <= index < |xs|) ==> ys == xs
    decreases |xs|
  {
    if xs == [] then []
    else
      var rest := Without(xs[1..], index - 1);
      if index == 0 then rest
      else
        assert 0 < index < |xs| ==> [xs[0]] + xs[1..][..index - 1] == xs[..index];
        assert [xs[0]] + xs[1..] == xs;
        [xs[0]] + rest
  }

  lemma WithoutDistinct<T>(xs: seq<T>, index: int)
    requires Distinct(xs)
    ensures Distinct(Without(xs, index))
  {
    var ys := Without(xs, index);
    if 0 <= index < |xs| {
      assert forall k :: 0 <= k < |ys| ==> ys[k] == xs[if k < index then k else k + 1];
    }
  }

  /** Removing keeps every other entry, in order, and shortens an in-range list by one. */
  lemma WithoutShape<T>(xs: seq<T>, index: int)
    requires 0 <= index < |xs|
    ensures var ys := Without(xs, index);
      && |ys| == |xs| - 1
      && (forall k :: 0 <= k < index ==> ys[k] == xs[k])
      && (forall k :: index <= k < |ys| ==> ys[k] == xs[k + 1])
  {
  }

  /** `map((inst, i) => ({ ...inst, stepNumber: i + 1 }))`. */
  function Renumbered(vs: seq<InstructionFields>): seq<InstructionFields> {
    seq(|vs|, i requires 0 <= i < |vs| => vs[i].(stepNumber := Some(i + 1)))
  }

  /** After renumbering the steps are 1..n in list order and the texts are unchanged. */
  lemma RenumberedSteps(vs: seq<InstructionFields>)
    ensures var ws := Renumbered(vs);
      && |ws| == |vs|
      && forall i :: 0 <= i < |ws| ==> ws[i].stepNumber == Some(i + 1) && ws[i].instruction == vs[i].instruction
  {
  }

  /** Reading the rows left after a removal is removing from what the rows read. */
  lemma InstructionValuesWithout(rows: seq<InstructionRow>, index: int)
    ensures InstructionValues(Without(rows, index)) == Without(InstructionValues(rows), index)
  {
    if 0 <= index < |rows| {
      WithoutShape(rows, index);
      WithoutShape(InstructionValues(rows), index);
    }
  }

  lemma IngredientValuesWithout(rows: seq<IngredientRow>, index: int)
    ensures IngredientValues(Without(rows, index)) == Without(IngredientValues(rows), index)
  {
    if 0 <= index < |rows| {
      WithoutShape(rows, index);
      WithoutShape(IngredientValues(rows), index);
    }
  }

  /** The copies `removeInstruction` makes: new row objects carrying the texts, numbered 1..n. */
  method RenumberRows(rows: seq<InstructionRow>) returns (out: seq<InstructionRow>)
    ensures |out| == |rows| && Distinct(out)
    ensures forall k :: 0 <= k < |out| ==> fresh(out[k])
    ensures InstructionValues(out) == Renumbered(InstructionValues(rows))
  {
    out := [];
    var i := 0;
    while i < |rows|
      invariant 0 <= i <= |rows| && |out| == i
      invariant forall k :: 0 <= k < i ==> fresh(out[k])
      invariant forall k :: 0 <= k < i ==> out[k].Fields() == InstructionFields(rows[k].instruction, Some(k + 1))
      invariant Distinct(out)
    {
      var row := new InstructionRow.Numbered(rows[i].instruction, i + 1);
      out := out + [row];
      i := i + 1;
    }
  }

  // ---------------------------------------------------------------------
  // The submitted payload

  function TrimEach(parts: seq<string>): (ts: seq<string>)
    ensures |ts| == |parts|
    ensures forall k :: 0 <= k < |ts| ==> ts[k] == Trim(parts[k])
    decreases |parts|
  {
    if parts == [] then [] else [Trim(parts[0])] + TrimEach(parts[1..])
  }

  /** `.filter(tag => tag)`: the non-empty pieces, each as often as it occurs and in their order (DropEmptyCounts, DropEmptyConcat). */
  function DropEmpty(parts: seq<string>): (ts: seq<string>)
    ensures forall k :: 0 <= k < |ts| ==> ts[k] != "" && ts[k] in parts
    decreases |parts|
  {
    if parts == [] then []
    else if parts[0] == "" then DropEmpty(parts[1..])
    else [parts[0]] + DropEmpty(parts[1..])
  }

  /** Every non-empty piece survives the filter as often as it occurs; no empty one does. */
  lemma {:induction false} DropEmptyCounts(parts: seq<string>)
    ensures multiset(DropEmpty(parts)) == multiset(parts)["" := 0]
    decreases |parts|
  {
    if parts != [] {
      DropEmptyCounts(parts[1..]);
      assert parts == [parts[0]] + parts[1..];
    }
  }

  /** Filtering keeps the order: it works piece by piece, so it distributes over concatenation. */
  lemma {:induction false} DropEmptyConcat(a: seq<string>, b: seq<string>)
    ensures DropEmpty(a + b) == DropEmpty(a) + DropEmpty(b)
    decreases |a|
  {
    if a == [] {
      assert a + b == b;
    } else {
      var ab := a + b;
      assert ab[0] == a[0] && ab[1..] == a[1..] + b;
      DropEmptyConcat(a[1..], b);
      if a[0] == "" {
        assert DropEmpty(ab) == DropEmpty(ab[1..]);
        assert DropEmpty(a) == DropEmpty(a[1..]);
      } else {
        assert DropEmpty(ab) == [a[0]] + DropEmpty(ab[1..]);
        assert DropEmpty(a) == [a[0]] + DropEmpty(a[1..]);
      }
    }
  }

  lemma DropEmptySingle(t: string)
    ensures DropEmpty([t]) == if t == "" then [] else [t]
  {
    assert [t][1..] == [];
  }

  lemma {:induction false} DropEmptyOfNonEmpty(parts: seq<string>)
    requires forall k :: 0 <= k < |parts| ==> parts[k] != ""
    ensures DropEmpty(parts) == parts
    decreases |parts|
  {
    if parts != [] {
      DropEmptyOfNonEmpty(parts[1..]);
    }
  }

  lemma {:induction false} TrimEachOfTrimmed(parts: seq<string>)
    requires forall k :: 0 <= k < |parts| ==> IsTrimmed(parts[k])
    ensures TrimEach(parts) == parts
  {
    forall k | 0 <= k < |parts| ensures TrimEach(parts)[k] == parts[k] {
      TrimOfTrimmed(parts[k]);
    }
  }

  /** Trimming removes characters, it never adds one. */
  lemma TrimKeepsAbsent(s: string, c: char)
    requires c !in s
    ensures c !in Trim(s)
  {
    TrimAt(s);
    CopyKeepsAbsent(s, Trim(s), TrimOffset(s), c);
  }

  /** A string read off another one at an offset holds none of the characters the other lacks. */
  lemma CopyKeepsAbsent(s: string, r: string, k: nat, c: char)
    requires k + |r| <= |s|
    requires forall j :: 0 <= j < |r| ==> r[j] == s[k + j]
    requires c !in s
    ensures c !in r
  {
    forall j | 0 <= j < |r| ensures r[j] != c {
      assert r[j] == s[k + j];
    }
  }

  /** `tags.split(',').map(tag => tag.trim()).filter(tag => tag)`. */
  function ParseTags(s: string): seq<string> {
    DropEmpty(TrimEach(Split(s, ',')))
  }

  /** No submitted tag is empty, has whitespace at either end, or holds a comma. */
  lemma ParsedTagsClean(s: string)
    ensures forall k :: 0 <= k < |ParseTags(s)| ==>
      var t := ParseTags(s)[k]; t != "" && IsTrimmed(t) && ',' !in t
  {
    var parts := Split(s, ',');
    var trimmed := TrimEach(parts);
    forall k | 0 <= k < |trimmed| ensures IsTrimmed(trimmed[k]) && ',' !in trimmed[k] {
      TrimKeepsAbsent(parts[k], ',');
    }
  }

  /** Clean tags typed back in with commas between them come out as they were. */
  lemma ParseTagsJoin(tags: seq<string>)
    requires forall k :: 0 <= k < |tags| ==> tags[k] != "" && IsTrimmed(tags[k]) && ',' !in tags[k]
    ensures ParseTags(Join(tags, ',')) == tags
  {
    if tags == [] {
      assert Split("", ',') == [""];
      assert TrimEach([""]) == [""];
    } else {
      SplitJoin(tags, ',');
      TrimEachOfTrimmed(tags);
      DropEmptyOfNonEmpty(tags);
    }
  }

  /** A comma-free text gives its trimmed self as the one tag, or none when it is blank. */
  lemma ParseTagsNoComma(s: string)
    requires ',' !in s
    ensures ParseTags(s) == if Trim(s) == "" then [] else [Trim(s)]
  {
    SplitWithoutSeparator(s, ',');
    assert TrimEach([s]) == [Trim(s)];
    DropEmptySingle(Trim(s));
  }

  /**
   * Up to its first comma a text gives one tag, or none when that piece is
   * blank, and the rest parses on its own. With ParseTagsNoComma this fixes
   * the tags of every text.
   */
  lemma ParseTagsAtFirstComma(a: string, b: string)
    requires ',' !in a
    ensures ParseTags(a + [','] + b) == (if Trim(a) == "" then [] else [Trim(a)]) + ParseTags(b)
  {
    SplitAtFirstSeparator(a, b, ',');
    var parts := [a] + Split(b, ',');
    assert parts[0] == a && parts[1..] == Split(b, ',');
    assert TrimEach(parts) == [Trim(a)] + TrimEach(Split(b, ','));
    DropEmptyConcat([Trim(a)], TrimEach(Split(b, ',')));
    DropEmptySingle(Trim(a));
  }

  /** Parsing is idempotent: the submitted tags, joined again, parse to themselves. */
  lemma ParseTagsIdempotent(s: string)
    ensures ParseTags(Join(ParseTags(s), ',')) == ParseTags(s)
  {
    ParsedTagsClean(s);
    ParseTagsJoin(ParseTags(s));
  }

  datatype SubmittedInstruction = SubmittedInstruction(instruction: string, stepNumber: int)

  /** `instructions.map((inst, index) => ({ ...inst, stepNumber: index + 1 }))`. */
  function NumberSteps(vs: seq<InstructionFields>): seq<SubmittedInstruction> {
    seq(|vs|, i requires 0 <= i < |vs| => SubmittedInstruction(vs[i].instruction, i + 1))
  }

  /** Submitted step numbers are 1..n whatever numbering the rows carried: only the texts matter. */
  lemma NumberStepsIgnoresPriorNumbers(vs: seq<InstructionFields>, ws: seq<InstructionFields>)
    requires |vs| == |ws| && forall i :: 0 <= i < |vs| ==> vs[i].instruction == ws[i].instruction
    ensures NumberSteps(vs) == NumberSteps(ws)
    ensures forall i :: 0 <= i < |vs| ==> NumberSteps(vs)[i].stepNumber == i + 1
  {
  }

  /**
   * The body `handleSubmit` sends. The three numbers are sent through
   * `parseInt`, which is not modelled: they stay the text that was typed.
   */
  datatype Payload = Payload(
    title: string,
    description: string,
    prepTime: string,
    cookTime: string,
    servings: string,
    difficulty: string,
    category: string,
    tags: seq<string>,
    ingredients: seq<IngredientFields>,
    instructions: seq<SubmittedInstruction>)

  /** The payload built from the form's values: tags parsed, steps numbered, everything else as typed. */
  function SubmittedPayload(title: string, description: string, prepTime: string, cookTime: string, servings: string,
      difficulty: string, category: string, tags: string,
      ings: seq<IngredientFields>, ins: seq<InstructionFields>): (p: Payload)
    ensures p.title == title && p.description == description && p.category == category && p.difficulty == difficulty
    ensures p.prepTime == prepTime && p.cookTime == cookTime && p.servings == servings
    ensures p.tags == ParseTags(tags)
    ensures forall k :: 0 <= k < |p.tags| ==> p.tags[k] != "" && IsTrimmed(p.tags[k]) && ',' !in p.tags[k]
    ensures p.ingredients == ings
    ensures |p.instructions| == |ins|
    ensures forall k :: 0 <= k < |ins| ==> p.instructions[k] == SubmittedInstruction(ins[k].instruction, k + 1)
  {
    ParsedTagsClean(tags);
    Payload(title, description, prepTime, cookTime, servings, difficulty, category,
      ParseTags(tags), ings, NumberSteps(ins))
  }

  // ---------------------------------------------------------------------
  // The form

  /** The form's text inputs, addressed by their `name`. */
  datatype TextField = Title | Description | PrepTime | CookTime | Servings | Difficulty | Category | Tags

  class RecipeForm {
    var title: string
    var description: string
    var prepTime: string
    var cookTime: string
    var servings: string
    var difficulty: string
    var category: string
    var tags: string
    var ingredients: seq<IngredientRow>
    var instructions: seq<InstructionRow>

    /** Both lists are non-empty and no row object appears twice in a list. */
    ghost predicate Valid()
      reads this
    {
      |ingredients| >= 1 && |instructions| >= 1 && Distinct(ingredients) && Distinct(instructions)
    }

    function Value(f: TextField): string
      reads this
    {
      match f
      case Title => title
      case Description => description
      case PrepTime => prepTime
      case CookTime => cookTime
      case Servings => servings
      case Difficulty => difficulty
      case Category => category
      case Tags => tags
    }

    function Ingredients(): seq<IngredientFields>
      reads this, ingredients
    {
      IngredientValues(ingredients)
    }

    function Instructions(): seq<InstructionFields>
      reads this, instructions
    {
      InstructionValues(instructions)
    }

    /** The initial state: every text empty except difficulty Medium, one blank ingredient, one blank instruction. */
    constructor ()
      ensures Valid()
      ensures forall f :: f != Difficulty ==> Value(f) == ""
      ensures Value(Difficulty) == "Medium"
      ensures Ingredients() == [BlankIngredient] && Instructions() == [BlankInstruction]
    {
      title, description, prepTime, cookTime, servings := "", "", "", "", "";
      difficulty, category, tags := "Medium", "", "";
      var ingredient := new IngredientRow.Blank();
      var instruction := new InstructionRow.Blank();
      ingredients := [ingredient];
      instructions := [instruction];
    }

    /** `handleInputChange`: only the named input changes. */
    method HandleInputChange(f: TextField, v: string)
      modifies this
      ensures Value(f) == v
      ensures forall g :: g != f ==> Value(g) == old(Value(g))
      ensures ingredients == old(ingredients) && instructions == old(instructions)
    {
      match f
      case Title => title := v;
      case Description => description := v;
      case PrepTime => prepTime := v;
      case CookTime => cookTime := v;
      case Servings => servings := v;
      case Difficulty => difficulty := v;
      case Category => category := v;
      case Tags => tags := v;
    }

    /** `handleIngredientChange`: the row at `index` is written in place; only its named field changes. */
    method HandleIngredientChange(index: int, f: IngredientField, v: string)
      requires Valid() && 0 <= index < |ingredients|
      modifies ingredients[index]
      ensures Valid()
      ensures Ingredients() == old(Ingredients())[index := SetField(old(Ingredients())[index], f, v)]
      ensures Instructions() == old(Instructions())
    {
      ingredients[index].Set(f, v);
      assert forall k :: 0 <= k < |ingredients| && k != index ==> ingredients[k] != ingredients[index];
    }

    /** `addIngredient`: one blank row at the end. */
    method AddIngredient()
      requires Valid()
      modifies this
      ensures Valid()
      ensures Ingredients() == old(Ingredients()) + [BlankIngredient]
      ensures Instructions() == old(Instructions())
      ensures forall f :: Value(f) == old(Value(f))
    {
      var row := new IngredientRow.Blank();
      ingredients := ingredients + [row];
    }

    /** `removeIngredient`: the row at `index` is dropped unless it is the only one. */
    method RemoveIngredient(index: int)
      requires Valid()
      modifies this
      ensures Valid()
      ensures |old(ingredients)| > 1 ==> Ingredients() == Without(old(Ingredients()), index)
      ensures |old(ingredients)| <= 1 ==> Ingredients() == old(Ingredients())
      ensures Instructions() == old(Instructions())
      ensures forall f :: Value(f) == old(Value(f))
    {
      if |ingredients| > 1 {
        WithoutDistinct(ingredients, index);
        IngredientValuesWithout(ingredients, index);
        ingredients := Without(ingredients, index);
      }
    }

    /** `handleInstructionChange`: the row at `index` gets the new text in place. */
    method HandleInstructionChange(index: int, v: string)
      requires Valid() && 0 <= index < |instructions|
      modifies instructions[index]
      ensures Valid()
      ensures Instructions() == old(Instructions())[index := old(Instructions())[index].(instruction := v)]
      ensures Ingredients() == old(Ingredients())
    {
      instructions[index].instruction := v;
      assert forall k :: 0 <= k < |instructions| && k != index ==> instructions[k] != instructions[index];
    }

    /** `addInstruction`: one blank row at the end. */
    method AddInstruction()
      requires Valid()
      modifies this
      ensures Valid()
      ensures Instructions() == old(Instructions()) + [BlankInstruction]
      ensures Ingredients() == old(Ingredients())
      ensures forall f :: Value(f) == old(Value(f))
    {
      var row := new InstructionRow.Blank();
      instructions := instructions + [row];
    }

    /** `removeInstruction`: unless it is the only row, the row at `index` is dropped and the rest are copied with steps 1..n. */
    method RemoveInstruction(index: int)
      requires Valid()
      modifies this
      ensures Valid()
      ensures |old(instructions)| > 1 ==> Instructions() == Renumbered(Without(old(Instructions()), index))
      ensures |old(instructions)| <= 1 ==> Instructions() == old(Instructions())
      ensures Ingredients() == old(Ingredients())
      ensures forall f :: Value(f) == old(Value(f))
    {
      if |instructions| > 1 {
        InstructionValuesWithout(instructions, index);
        var kept := Without(instructions, index);
        ghost var keptValues := InstructionValues(kept);
        assert keptValues == Without(Instructions(), index);
        var rows := RenumberRows(kept);
        assert InstructionValues(rows) == Renumbered(keptValues);
        instructions := rows;
      }
    }

    /** The body `handleSubmit` sends: tags parsed, steps numbered, everything else as typed. */
    function Submitted(): (p: Payload)
      reads this, ingredients, instructions
      ensures p.title == title && p.description == description && p.category == category && p.difficulty == difficulty
      ensures p.ingredients == Ingredients()
      ensures |p.instructions| == |Instructions()|
    {
      SubmittedPayload(title, description, prepTime, cookTime, servings, difficulty, category, tags,
        Ingredients(), Instructions())
    }
  }
}
