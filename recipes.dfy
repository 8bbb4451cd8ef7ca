/**
 * `recipe_inserter.py`: checking a recipe record, rewriting it into the shape
 * of the `recipes` table (lists joined by line feeds, steps numbered,
 * `instructions` renamed to `preparation`), storing it, and reading the table
 * back with the stored text split into lines again.
 */
module Recipes {
  import opened Wrappers
  import opened PyText

  /** A value of the parsed recipe as far as the code looks at it: a string, a
      list of strings, or anything else. */
  datatype Value = Str(text: string) | Lst(items: seq<string>) | Other

  type Recipe = map<string, Value>

  /** The types `validate_recipe_json` accepts for a field. */
  datatype Expected = StrOnly | ListOrStr

  /** The required fields, in the order they are checked. */
  const RequiredFields: seq<(string, Expected)> :=
    [("name", StrOnly), ("image_name", StrOnly), ("ingredients", ListOrStr), ("instructions", ListOrStr)]

  const Newline: char := '\n'

  predicate HasType(v: Value, e: Expected)
  {
    match e
    case StrOnly => v.Str?
    case ListOrStr => v.Str? || v.Lst?
  }

  /** The field is present and of an accepted type. */
  predicate FieldOk(recipe: Recipe, field: (string, Expected))
  {
    field.0 in recipe && HasType(recipe[field.0], field.1)
  }

  /** The message for a field that is missing or of the wrong type. */
  function FieldError(recipe: Recipe, field: (string, Expected)): string
  {
    if field.0 !in recipe then "Missing required field: " + field.0
    else
      match field.1
      case StrOnly => "Field " + field.0 + " must be of type: <class 'str'>"
      case ListOrStr => "Field " + field.0 + " must be one of types: (<class 'list'>, <class 'str'>)"
  }

  /** A recipe the table can take: a string name and image name, and
      ingredients and instructions each a list or a string. */
  predicate Acceptable(recipe: Recipe)
  {
    && "name" in recipe && recipe["name"].Str?
    && "image_name" in recipe && recipe["image_name"].Str?
    && "ingredients" in recipe && !recipe["ingredients"].Other?
    && "instructions" in recipe && !recipe["instructions"].Other?
  }

  /** The loop of `validate_recipe_json`: stops at the first field that fails. */
  function CheckFields(recipe: Recipe, fields: seq<(string, Expected)>): (r: (bool, string))
    ensures r.0 <==> forall i :: 0 <= i < |fields| ==> FieldOk(recipe, fields[i])
    ensures r.0 ==> r.1 == ""
    ensures forall i :: (0 <= i < |fields| && !FieldOk(recipe, fields[i])
                         && (forall j :: 0 <= j < i ==> FieldOk(recipe, fields[j])))
                        ==> r == (false, FieldError(recipe, fields[i]))
  {
    if fields == [] then (true, "")
    else if !FieldOk(recipe, fields[0]) then (false, FieldError(recipe, fields[0]))
    else
      var r := CheckFields(recipe, fields[1..]);
      assert forall i :: 1 <= i < |fields| ==> fields[1..][i - 1] == fields[i];
      r
  }

  /** `validate_recipe_json` */
  function ValidateRecipe(recipe: Recipe): (r: (bool, string))
    ensures r.0 <==> Acceptable(recipe)
    ensures r.0 ==> r.1 == ""
    ensures forall i :: (0 <= i < |RequiredFields| && !FieldOk(recipe, RequiredFields[i])
                         && (forall j :: 0 <= j < i ==> FieldOk(recipe, RequiredFields[j])))
                        ==> r == (false, FieldError(recipe, RequiredFields[i]))
  {
    var r := CheckFields(recipe, RequiredFields);
    assert r.0 <==> (FieldOk(recipe, RequiredFields[0]) && FieldOk(recipe, RequiredFields[1])
                     && FieldOk(recipe, RequiredFields[2]) && FieldOk(recipe, RequiredFields[3]));
    r
  }

  lemma {:induction false} CheckFieldsIgnoresOtherKeys(recipe: Recipe, fields: seq<(string, Expected)>, key: string, v: Value)
    requires forall i :: 0 <= i < |fields| ==> fields[i].0 != key
    ensures CheckFields(recipe[key := v], fields) == CheckFields(recipe, fields)
    decreases |fields|
  {
    if fields != [] {
      assert FieldOk(recipe[key := v], fields[0]) == FieldOk(recipe, fields[0]);
      assert FieldError(recipe[key := v], fields[0]) == FieldError(recipe, fields[0]);
      CheckFieldsIgnoresOtherKeys(recipe, fields[1..], key, v);
    }
  }

  /** Keys other than the four required ones never change the verdict or the message. */
  lemma ValidationIgnoresOtherKeys(recipe: Recipe, key: string, v: Value)
    requires key != "name" && key != "image_name" && key != "ingredients" && key != "instructions"
    ensures ValidateRecipe(recipe[key := v]) == ValidateRecipe(recipe)
  {
    CheckFieldsIgnoresOtherKeys(recipe, RequiredFields, key, v);
  }

  /** Step `n` (counted from 1) of a list of instructions: kept as it is when,
      stripped, it already starts with `str(n)`, and prefixed with "n. " otherwise.
      The test is textual, so "10 eggs" counts as already numbered at step 1. */
  function NumberStep(n: nat, line: string): string
  {
    if StartsWith(Strip(line), Decimal(n)) then line else Decimal(n) + ". " + line
  }

  /** The instructions list with every step numbered. */
  function NumberSteps(lines: seq<string>): seq<string>
  {
    seq(|lines|, i requires 0 <= i < |lines| => NumberStep(i + 1, lines[i]))
  }

  /** After numbering, step `n`, stripped, starts with `str(n)`. */
  lemma NumberStepIsNumbered(n: nat, line: string)
    ensures StartsWith(Strip(NumberStep(n, line)), Decimal(n))
    ensures NumberStep(n, line) == line || NumberStep(n, line) == Decimal(n) + ". " + line
  {
    if !StartsWith(Strip(line), Decimal(n)) {
      var d := Decimal(n);
      assert (d + ". " + line)[..|d|] == d;
      StripKeepsNumeral(d + ". " + line, d);
    }
  }

  /** Every line the numbering produces carries its own step number. */
  lemma NumberStepsAreNumbered(lines: seq<string>)
    ensures |NumberSteps(lines)| == |lines|
    ensures forall i :: 0 <= i < |lines| ==> StartsWith(Strip(NumberSteps(lines)[i]), Decimal(i + 1))
  {
    forall i | 0 <= i < |lines| ensures StartsWith(Strip(NumberSteps(lines)[i]), Decimal(i + 1)) {
      NumberStepIsNumbered(i + 1, lines[i]);
    }
  }

  /** Lines that already carry their numbers are left exactly as they are. */
  lemma NumberedLinesKept(lines: seq<string>)
    requires forall i :: 0 <= i < |lines| ==> StartsWith(Strip(lines[i]), Decimal(i + 1))
    ensures NumberSteps(lines) == lines
  {
  }

  /** Numbering an already numbered list changes nothing. */
  lemma NumberStepsIdempotent(lines: seq<string>)
    ensures NumberSteps(NumberSteps(lines)) == NumberSteps(lines)
  {
    NumberStepsAreNumbered(lines);
    NumberedLinesKept(NumberSteps(lines));
  }

  /** The quirk of the textual test: "10 eggs" is taken to be step 1 already. */
  lemma TenEggsCountsAsStepOne()
    ensures NumberStep(1, "10 eggs") == "10 eggs"
  {
    assert Decimal(1) == "1";
    assert LStrip("10 eggs") == "10 eggs";
    assert RStrip("10 eggs") == "10 eggs";
  }

  /** What `format_recipe_data` makes of a recipe. */
  function Formatted(recipe: Recipe): Recipe
    requires "ingredients" in recipe && "instructions" in recipe
  {
    var ingredients := match recipe["ingredients"]
      case Lst(items) => Str(Join(items, Newline))
      case v => v;
    var preparation := match recipe["instructions"]
      case Lst(steps) => Str(Join(NumberSteps(steps), Newline))
      case v => v;
    (recipe["ingredients" := ingredients] - {"instructions"})["preparation" := preparation]
  }

  /** `format_recipe_data`: works on a copy, so the caller's record is untouched. */
  method FormatRecipe(recipe: Recipe) returns (formatted: Recipe)
    requires "ingredients" in recipe && "instructions" in recipe
    ensures formatted == Formatted(recipe)
  {
    formatted := recipe;
    var ingredients := formatted["ingredients"];
    if ingredients.Lst? {
      formatted := formatted["ingredients" := Str(Join(ingredients.items, Newline))];
    }
    var instructions := formatted["instructions"];
    if instructions.Lst? {
      var steps := instructions.items;
      var numbered: seq<string> := [];
      for i := 0 to |steps|
        invariant |numbered| == i
        invariant forall j :: 0 <= j < i ==> numbered[j] == NumberStep(j + 1, steps[j])
      {
        var step := steps[i];
        if !StartsWith(Strip(step), Decimal(i + 1)) {
          step := Decimal(i + 1) + ". " + step;
        }
        numbered := numbered + [step];
      }
      assert numbered == NumberSteps(steps);
      formatted := formatted["instructions" := Str(Join(numbered, Newline))];
    }
    var preparation := formatted["instructions"];
    formatted := formatted - {"instructions"};
    formatted := formatted["preparation" := preparation];
  }

  /** The shape of a formatted recipe: `instructions` is gone, `preparation` is
      there, lists are joined and steps numbered, strings pass through, and every
      other key keeps its value. */
  lemma FormattedShape(recipe: Recipe)
    requires "ingredients" in recipe && "instructions" in recipe
    ensures var f := Formatted(recipe);
      && f.Keys == recipe.Keys - {"instructions"} + {"preparation"}
      && (forall k :: k in recipe && k != "ingredients" && k != "instructions" && k != "preparation"
            ==> f[k] == recipe[k])
      && (recipe["ingredients"].Lst? ==> f["ingredients"] == Str(Join(recipe["ingredients"].items, Newline)))
      && (!recipe["ingredients"].Lst? ==> f["ingredients"] == recipe["ingredients"])
      && (recipe["instructions"].Lst? ==>
            f["preparation"] == Str(Join(NumberSteps(recipe["instructions"].items), Newline)))
      && (!recipe["instructions"].Lst? ==> f["preparation"] == recipe["instructions"])
  {
  }

  /** What `get_all_recipes` makes of a stored text column. */
  function SplitStored(s: string): seq<string>
  {
    if s == "" then [] else Split(s, Newline)
  }

  /** A stored list comes back as it went in, unless an element held a line feed
      or the list was `[""]` (stored as "", read back as `[]`). */
  lemma StoredListRoundTrip(items: seq<string>)
    requires FreeOf(items, Newline) && items != [""]
    ensures SplitStored(Join(items, Newline)) == items
  {
    if items != [] {
      assert Join(items, Newline) != "" by {
        if |items| == 1 {
          assert items[0] != "";
        } else {
          assert |Join(items, Newline)| >= 1;
        }
      }
      SplitJoin(items, Newline);
    }
  }

  /** Reading a stored text and joining its lines again gives the text back. */
  lemma StoredTextRoundTrip(s: string)
    ensures Join(SplitStored(s), Newline) == s
  {
    if s != "" {
      JoinSplit(s, Newline);
    }
  }

  /** The numbered steps come back one per line. */
  lemma PreparationRoundTrip(steps: seq<string>)
    requires FreeOf(steps, Newline)
    ensures SplitStored(Join(NumberSteps(steps), Newline)) == NumberSteps(steps)
  {
    var numbered := NumberSteps(steps);
    forall i | 0 <= i < |numbered| ensures Newline !in numbered[i] {
      var d := Decimal(i + 1);
      if numbered[i] != steps[i] {
        assert numbered[i] == d + ". " + steps[i];
        assert forall j :: 0 <= j < |d| ==> d[j] != Newline;
      }
    }
    if |numbered| == 1 {
      NumberStepIsNumbered(1, steps[0]);
      assert LStrip("") == "" && RStrip("") == "";
      assert numbered[0] != "";
    }
    StoredListRoundTrip(numbered);
  }

  /** A row of the `recipes` table. */
  datatype RecipeRow = RecipeRow(recipeId: nat, name: string, imageName: string,
                                 ingredients: string, preparation: string)

  /** A recipe as `get_all_recipes` returns it. */
  datatype RecipeView = RecipeView(recipeId: nat, name: string, imageName: string,
                                   ingredients: seq<string>, preparation: seq<string>)

  /** The row `insert_recipe` writes for an accepted recipe. */
  function StoredRow(recipeId: nat, recipe: Recipe): RecipeRow
    requires Acceptable(recipe)
  {
    var f := Formatted(recipe);
    RecipeRow(recipeId, f["name"].text, f["image_name"].text, f["ingredients"].text, f["preparation"].text)
  }

  /** One row of `get_all_recipes`. */
  function ViewOf(row: RecipeRow): RecipeView
  {
    RecipeView(row.recipeId, row.name, row.imageName, SplitStored(row.ingredients), SplitStored(row.preparation))
  }

  /** Storing a recipe and reading it back returns its name and image name, its
      ingredient list, and its instructions as numbered steps. */
  lemma InsertThenRead(recipeId: nat, recipe: Recipe)
    requires Acceptable(recipe)
    ensures var view := ViewOf(StoredRow(recipeId, recipe));
      && view.name == recipe["name"].text && view.imageName == recipe["image_name"].text
      && ((recipe["ingredients"].Lst? && FreeOf(recipe["ingredients"].items, Newline)
           && recipe["ingredients"].items != [""]) ==> view.ingredients == recipe["ingredients"].items)
      && (recipe["instructions"].Lst? && FreeOf(recipe["instructions"].items, Newline)
          ==> view.preparation == NumberSteps(recipe["instructions"].items))
  {
    if recipe["ingredients"].Lst? && FreeOf(recipe["ingredients"].items, Newline) && recipe["ingredients"].items != [""] {
      StoredListRoundTrip(recipe["ingredients"].items);
    }
    if recipe["instructions"].Lst? && FreeOf(recipe["instructions"].items, Newline) {
      PreparationRoundTrip(recipe["instructions"].items);
    }
  }

  /** The `recipes` table. */
  class RecipeStore {
    var rows: seq<RecipeRow>
    var nextId: nat

    /** An empty table; the autoincrement key starts at 1. */
    constructor ()
      ensures rows == [] && nextId == 1
    {
      rows := [];
      nextId := 1;
    }

    /**
     * `insert_recipe`. `parsed` is what `json.loads` made of the text (`None`
     * when it raised), and `dbError` is the message of the database error the
     * insert raised, if it did. A rejected recipe never reaches the table.
     */
    method InsertRecipe(parsed: Option<Recipe>, dbError: Option<string>) returns (success: bool, message: string)
      modifies this
      ensures parsed.None? ==> !success && message == "Invalid JSON format"
      ensures parsed.Some? && !Acceptable(parsed.value) ==> (success, message) == ValidateRecipe(parsed.value)
      ensures parsed.Some? && Acceptable(parsed.value) && dbError.Some? ==>
        !success && message == "Database error: " + dbError.value
      ensures !success ==> rows == old(rows) && nextId == old(nextId)
      ensures success <==> parsed.Some? && Acceptable(parsed.value) && dbError.None?
      ensures success ==> (message == "Recipe inserted successfully!"
        && rows == old(rows) + [StoredRow(old(nextId), parsed.value)] && nextId == old(nextId) + 1)
    {
      if parsed.None? {
        return false, "Invalid JSON format";
      }
      var recipe := parsed.value;
      var verdict := ValidateRecipe(recipe);
      if !verdict.0 {
        return false, verdict.1;
      }
      var formatted := FormatRecipe(recipe);
      if dbError.Some? {
        return false, "Database error: " + dbError.value;
      }
      rows := rows + [RecipeRow(nextId, formatted["name"].text, formatted["image_name"].text,
                                formatted["ingredients"].text, formatted["preparation"].text)];
      nextId := nextId + 1;
      success, message := true, "Recipe inserted successfully!";
    }

    /** `get_all_recipes`: every stored row, its text columns split into lines. */
    method GetAllRecipes() returns (recipes: seq<RecipeView>)
      ensures |recipes| == |rows|
      ensures forall i :: 0 <= i < |rows| ==> recipes[i] == ViewOf(rows[i])
    {
      recipes := [];
      for i := 0 to |rows|
        invariant |recipes| == i
        invariant forall j :: 0 <= j < i ==> recipes[j] == ViewOf(rows[j])
      {
        var row := rows[i];
        var recipe := RecipeView(row.recipeId, row.name, row.imageName,
                                 if row.ingredients != "" then Split(row.ingredients, Newline) else [],
                                 if row.preparation != "" then Split(row.preparation, Newline) else []);
        recipes := recipes + [recipe];
      }
    }
  }
}
