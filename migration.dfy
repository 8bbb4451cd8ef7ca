/**
 * `data_migration.py`: loading the product catalogue from the JSON files of
 * the `replacement` directory. One category per file (named after the file),
 * then one `product` row per serving that carries a full FODMAP vector, all in
 * one transaction that is committed at the end or rolled back on the first
 * error.
 */
module Migration {
  import opened Wrappers
  import opened PyText

  /** A value bound to a placeholder of an SQL statement. */
  datatype SqlValue = SqlText(text: string) | SqlInt(n: int) | SqlBool(b: bool) | SqlNull

  /** The parts of a catalogue file the migration reads; `None` is a key that is absent. */
  datatype Replacement = Replacement(name: Option<string>)
  datatype Serve = Serve(title: Option<string>, fodmap: Option<seq<int>>)
  datatype Product = Product(name: Option<string>, serves: Option<seq<Serve>>,
                             allergy: Option<seq<int>>, replacement: Option<seq<Replacement>>)
  datatype CatalogFile = CatalogFile(food: Option<seq<Product>>)

  /** A row of the `product` table, its columns in the order the INSERT names them. */
  datatype ProductRow = ProductRow(
    name: SqlValue, categoryId: SqlValue,
    fructoseLevel: SqlValue, lactoseLevel: SqlValue, fructanLevel: SqlValue,
    mannitolLevel: SqlValue, sorbitolLevel: SqlValue, gosLevel: SqlValue,
    servingTitle: SqlValue, servingAmountGrams: SqlValue,
    containsNuts: SqlValue, containsPeanut: SqlValue, containsGluten: SqlValue,
    containsEggs: SqlValue, containsFish: SqlValue, containsSoy: SqlValue,
    replacementName: SqlValue)

  /** Why the migration stopped: `product['name']` or `serve['title']` missing,
      a file that could not be loaded, or no category row for a file. */
  datatype MigrationError =
    | MissingProductName
    | MissingServeTitle
    | UnreadableFile(fileName: string)
    | MissingCategory(categoryName: string)

  datatype MigrationOutcome = Committed | RolledBack(error: MigrationError)

  type Rows = Result<seq<ProductRow>, MigrationError>

  /** A serving is migrated only with at least this many FODMAP values. */
  const FodmapLength: nat := 9

  /** The allergy codes behind the six `contains_*` columns. */
  const Nuts: int := 0
  const Peanut: int := 1
  const Gluten: int := 2
  const Eggs: int := 3
  const Fish: int := 4
  const Soy: int := 5

  /** The 17 placeholders of the INSERT, bound to columns by position. */
  function BindProductColumns(p: seq<SqlValue>): ProductRow
    requires |p| == 17
  {
    ProductRow(p[0], p[1], p[2], p[3], p[4], p[5], p[6], p[7], p[8], p[9],
               p[10], p[11], p[12], p[13], p[14], p[15], p[16])
  }

  /** `replacements[0].get('name', None) if replacements else None` */
  function ReplacementName(product: Product): (r: SqlValue)
    ensures r.SqlNull? || r.SqlText?
    ensures r.SqlText? <==> product.replacement.GetOr([]) != [] && product.replacement.GetOr([])[0].name.Some?
    ensures r.SqlText? ==> r.text == product.replacement.value[0].name.value
  {
    var replacements := product.replacement.GetOr([]);
    if replacements == [] then SqlNull
    else
      match replacements[0].name
      case Some(n) => SqlText(n)
      case None => SqlNull
  }

  /** The parameter tuple of the INSERT for one serving, in the order it is written. */
  function InsertParams(categoryId: nat, name: string, title: string, fodmap: seq<int>,
                        allergies: seq<int>, replacementName: SqlValue): (p: seq<SqlValue>)
    requires |fodmap| >= FodmapLength
    ensures |p| == 17
  {
    [ SqlText(name), SqlInt(categoryId),
      SqlInt(fodmap[0]), SqlInt(fodmap[1]), SqlInt(fodmap[4]),
      SqlInt(fodmap[3]), SqlInt(fodmap[2]), SqlInt(fodmap[5]),
      SqlText(title), SqlInt(fodmap[8]),
      SqlBool(Nuts in allergies), SqlBool(Peanut in allergies), SqlBool(Gluten in allergies),
      SqlBool(Eggs in allergies), SqlBool(Fish in allergies), SqlBool(Soy in allergies),
      replacementName ]
  }

  /** The rows one serving of one product contributes: none when its FODMAP list
      is short, else exactly one, whose columns take FODMAP values 0, 1, 2, 3,
      4, 5 and 8 as fructose, lactose, sorbitol, mannitol, fructan, GOS and
      serving grams. */
  function ServeRows(categoryId: nat, product: Product, serve: Serve): (r: Rows)
    ensures |serve.fodmap.GetOr([])| < FodmapLength ==> r == Ok([])
    ensures |serve.fodmap.GetOr([])| >= FodmapLength && product.name.Some? && serve.title.Some? ==>
      r.Ok? && |r.value| == 1
    ensures |serve.fodmap.GetOr([])| >= FodmapLength ==>
      (r == Err(MissingProductName) <==> product.name.None?)
      && (r == Err(MissingServeTitle) <==> product.name.Some? && serve.title.None?)
    ensures r.Ok? && r.value != [] ==>
      var fodmap := serve.fodmap.value;
      var allergies := product.allergy.GetOr([]);
      var row := r.value[0];
      && |r.value| == 1 && |fodmap| >= FodmapLength
      && row.name == SqlText(product.name.value) && row.categoryId == SqlInt(categoryId)
      && row.fructoseLevel == SqlInt(fodmap[0]) && row.lactoseLevel == SqlInt(fodmap[1])
      && row.sorbitolLevel == SqlInt(fodmap[2]) && row.mannitolLevel == SqlInt(fodmap[3])
      && row.fructanLevel == SqlInt(fodmap[4]) && row.gosLevel == SqlInt(fodmap[5])
      && row.servingTitle == SqlText(serve.title.value) && row.servingAmountGrams == SqlInt(fodmap[8])
      && row.containsNuts == SqlBool(0 in allergies) && row.containsPeanut == SqlBool(1 in allergies)
      && row.containsGluten == SqlBool(2 in allergies) && row.containsEggs == SqlBool(3 in allergies)
      && row.containsFish == SqlBool(4 in allergies) && row.containsSoy == SqlBool(5 in allergies)
      && row.replacementName == ReplacementName(product)
  {
    var fodmap := serve.fodmap.GetOr([]);
    if |fodmap| < FodmapLength then Ok([])
    else
      var allergies := product.allergy.GetOr([]);
      var replacementName := ReplacementName(product);
      if product.name.None? then Err(MissingProductName)
      else if serve.title.None? then Err(MissingServeTitle)
      else
        Ok([BindProductColumns(InsertParams(categoryId, product.name.value, serve.title.value,
                                            fodmap, allergies, replacementName))])
  }

  /** The rows of a list of items, each contributing `step(item)`, in order; the
      first error ends the list. */
  function Collect<T>(items: seq<T>, step: T -> Rows): Rows
  {
    if items == [] then Ok([])
    else
      match Collect(items[..|items| - 1], step)
      case Err(e) => Err(e)
      case Ok(rows) =>
        match step(items[|items| - 1])
        case Err(e) => Err(e)
        case Ok(more) => Ok(rows + more)
  }

  lemma CollectPrefix<T>(items: seq<T>, i: nat, step: T -> Rows)
    requires i < |items|
    ensures Collect(items[..i + 1], step) ==
      match Collect(items[..i], step)
      case Err(e) => Err(e)
      case Ok(rows) =>
        match step(items[i])
        case Err(e) => Err(e)
        case Ok(more) => Ok(rows + more)
  {
    assert items[..i + 1][..i] == items[..i];
  }

  /** Once a prefix has failed, the whole list fails with the same error. */
  lemma {:induction false} CollectErrorSticks<T>(items: seq<T>, i: nat, step: T -> Rows)
    requires i <= |items| && Collect(items[..i], step).Err?
    ensures Collect(items, step) == Collect(items[..i], step)
    decreases |items| - i
  {
    if i < |items| {
      CollectPrefix(items, i, step);
      CollectErrorSticks(items, i + 1, step);
    } else {
      assert items[..i] == items;
    }
  }

  /** A property every contributed row has holds of every collected row. */
  lemma {:induction false} CollectAll<T>(items: seq<T>, step: T -> Rows, p: ProductRow -> bool)
    requires forall x :: x in items && step(x).Ok? ==> forall row :: row in step(x).value ==> p(row)
    requires Collect(items, step).Ok?
    ensures forall row :: row in Collect(items, step).value ==> p(row)
    decreases |items|
  {
    if items != [] {
      CollectAll(items[..|items| - 1], step, p);
      assert items[|items| - 1] in items;
    }
  }

  /** A failed list failed on one of its items. */
  lemma {:induction false} CollectErrorFrom<T>(items: seq<T>, step: T -> Rows)
    requires Collect(items, step).Err?
    ensures exists x :: x in items && step(x) == Err(Collect(items, step).error)
    decreases |items|
  {
    var init := items[..|items| - 1];
    var last := items[|items| - 1];
    assert last in items;
    if Collect(init, step).Err? {
      CollectErrorFrom(init, step);
      var x :| x in init && step(x) == Err(Collect(init, step).error);
      assert x in items;
    }
  }

  function ServeStep(categoryId: nat, product: Product): Serve -> Rows
  {
    serve => ServeRows(categoryId, product, serve)
  }

  /** The rows of one product: its servings in order; a missing `serves` list gives none. */
  function ProductRows(categoryId: nat, product: Product): Rows
  {
    Collect(product.serves.GetOr([]), ServeStep(categoryId, product))
  }

  function ProductStep(categoryId: nat): Product -> Rows
  {
    product => ProductRows(categoryId, product)
  }

  /** The rows of one loaded file: its products in order; a missing `food` list gives none. */
  function CatalogRows(categoryId: nat, data: CatalogFile): Rows
  {
    Collect(data.food.GetOr([]), ProductStep(categoryId))
  }

  /** The servings of a list that produce a row. */
  function Qualifying(serves: seq<Serve>): seq<Serve>
  {
    if serves == [] then []
    else
      var last := serves[|serves| - 1];
      Qualifying(serves[..|serves| - 1]) + (if |last.fodmap.GetOr([])| >= FodmapLength then [last] else [])
  }

  /** A product yields exactly one row per qualifying serving, in serving order,
      each row naming that serving. */
  lemma {:induction false} ProductRowsOnePerServe(categoryId: nat, product: Product, serves: seq<Serve>)
    requires Collect(serves, ServeStep(categoryId, product)).Ok?
    ensures var rows := Collect(serves, ServeStep(categoryId, product)).value;
      && |rows| == |Qualifying(serves)|
      && forall i :: 0 <= i < |rows| ==>
           Qualifying(serves)[i].title.Some? && rows[i].servingTitle == SqlText(Qualifying(serves)[i].title.value)
    decreases |serves|
  {
    if serves != [] {
      var init := serves[..|serves| - 1];
      var last := serves[|serves| - 1];
      ProductRowsOnePerServe(categoryId, product, init);
      var r := ServeRows(categoryId, product, last);
      assert ServeStep(categoryId, product)(last) == r;
      if |last.fodmap.GetOr([])| >= FodmapLength {
        assert r.Ok? && r.value != [];
      }
    }
  }

  /** The number of servings with a full FODMAP vector over a list of products. */
  function QualifyingCount(food: seq<Product>): nat
  {
    if food == [] then 0
    else QualifyingCount(food[..|food| - 1]) + |Qualifying(food[|food| - 1].serves.GetOr([]))|
  }

  /** A file yields one row per qualifying serving of its products; a product
      without `serves` and a file without `food` yield none. */
  lemma {:induction false} CatalogRowsOnePerServe(categoryId: nat, food: seq<Product>)
    requires Collect(food, ProductStep(categoryId)).Ok?
    ensures |Collect(food, ProductStep(categoryId)).value| == QualifyingCount(food)
    decreases |food|
  {
    if food != [] {
      var init := food[..|food| - 1];
      var last := food[|food| - 1];
      CatalogRowsOnePerServe(categoryId, init);
      assert ProductStep(categoryId)(last) == ProductRows(categoryId, last);
      ProductRowsOnePerServe(categoryId, last, last.serves.GetOr([]));
    }
  }

  /** Every row of a product carries the category id it was given. */
  lemma ProductRowsCategory(categoryId: nat, product: Product)
    requires ProductRows(categoryId, product).Ok?
    ensures forall row :: row in ProductRows(categoryId, product).value ==> row.categoryId == SqlInt(categoryId)
  {
    var p := (row: ProductRow) => row.categoryId == SqlInt(categoryId);
    var serves := product.serves.GetOr([]);
    forall s | s in serves && ServeStep(categoryId, product)(s).Ok?
      ensures forall row :: row in ServeStep(categoryId, product)(s).value ==> p(row)
    {
      var r := ServeRows(categoryId, product, s);
      if r.value != [] {
        assert r.value == [r.value[0]];
      }
    }
    CollectAll(serves, ServeStep(categoryId, product), p);
  }

  /** Every row of a file carries the category id it was given. */
  lemma CatalogRowsCategory(categoryId: nat, data: CatalogFile)
    requires CatalogRows(categoryId, data).Ok?
    ensures forall row :: row in CatalogRows(categoryId, data).value ==> row.categoryId == SqlInt(categoryId)
  {
    var p := (row: ProductRow) => row.categoryId == SqlInt(categoryId);
    var products := data.food.GetOr([]);
    forall x | x in products && ProductStep(categoryId)(x).Ok?
      ensures forall row :: row in ProductStep(categoryId)(x).value ==> p(row)
    {
      ProductRowsCategory(categoryId, x);
    }
    CollectAll(products, ProductStep(categoryId), p);
  }

  /** Index of the last '.' of a name. */
  function LastDot(s: string): (r: Option<nat>)
    ensures r.None? ==> '.' !in s
    ensures r.Some? ==> r.value < |s| && s[r.value] == '.' && forall j :: r.value < j < |s| ==> s[j] != '.'
  {
    if s == [] then None
    else if s[|s| - 1] == '.' then Some(|s| - 1)
    else LastDot(s[..|s| - 1])
  }

  /** `os.path.splitext(name)[0]` for a bare file name: the name up to its last
      dot, unless only dots precede that dot (a leading dot starts no extension). */
  function CategoryName(fileName: string): (r: string)
    ensures StartsWith(fileName, r)
    ensures r != fileName <==>
      exists i, d :: 0 <= i < d < |fileName| && fileName[i] != '.' && fileName[d] == '.'
    ensures r != fileName ==>
      fileName[|r|] == '.' && forall j :: |r| < j < |fileName| ==> fileName[j] != '.'
  {
    match LastDot(fileName)
    case None => fileName
    case Some(d) =>
      if exists i | 0 <= i < d :: fileName[i] != '.' then fileName[..d]
      else
        assert forall i, e :: 0 <= i < e < |fileName| && fileName[e] == '.' ==> fileName[i] == '.' by {
          forall i, e | 0 <= i < e < |fileName| && fileName[e] == '.' ensures fileName[i] == '.' {
            assert e <= d;
          }
        }
        fileName
  }

  const JsonSuffix: string := ".json"

  /** `[f for f in listing if f.endswith('.json')]` */
  function JsonFiles(listing: seq<string>): (files: seq<string>)
    ensures forall f :: f in files <==> f in listing && EndsWith(f, JsonSuffix)
  {
    if listing == [] then []
    else
      var last := listing[|listing| - 1];
      JsonFiles(listing[..|listing| - 1]) + (if EndsWith(last, JsonSuffix) then [last] else [])
  }

  lemma {:induction false} LastDotIs(s: string, d: nat)
    requires d < |s| && s[d] == '.' && forall j :: d < j < |s| ==> s[j] != '.'
    ensures LastDot(s) == Some(d)
    decreases |s|
  {
    if d < |s| - 1 {
      LastDotIs(s[..|s| - 1], d);
    }
  }

  /** Keeping the ".json" names keeps their listing order: filtering a listing
      is filtering its parts one after the other, and one name is kept exactly
      when it ends in ".json". */
  lemma {:induction false} JsonFilesAppend(a: seq<string>, b: seq<string>)
    ensures JsonFiles(a + b) == JsonFiles(a) + JsonFiles(b)
    ensures |b| == 1 ==> JsonFiles(b) == (if EndsWith(b[0], JsonSuffix) then b else [])
    decreases |b|
  {
    if b == [] {
      assert a + b == a;
    } else {
      var init, last := b[..|b| - 1], b[|b| - 1];
      var kept := if EndsWith(last, JsonSuffix) then [last] else [];
      JsonFilesAppend(a, init);
      assert (a + b)[..|a + b| - 1] == a + init && (a + b)[|a + b| - 1] == last;
      calc {
        JsonFiles(a + b);
        JsonFiles(a + init) + kept;
        JsonFiles(a) + JsonFiles(init) + kept;
        JsonFiles(a) + (JsonFiles(init) + kept);
        JsonFiles(a) + JsonFiles(b);
      }
      if |b| == 1 {
        assert init == [] && b == [last];
      }
    }
  }

  /** A catalogue file's category is its name without ".json", as long as something
      other than dots precedes the extension. */
  lemma CategoryNameDropsSuffix(fileName: string)
    requires EndsWith(fileName, JsonSuffix)
    requires exists i | 0 <= i < |fileName| - |JsonSuffix| :: fileName[i] != '.'
    ensures CategoryName(fileName) + JsonSuffix == fileName
  {
    var d := |fileName| - |JsonSuffix|;
    assert fileName[d..] == JsonSuffix;
    assert fileName[d] == fileName[d..][0] == '.';
    forall j | d < j < |fileName| ensures fileName[j] != '.' {
      assert fileName[j] == JsonSuffix[j - d];
      assert JsonSuffix[1] == 'j' && JsonSuffix[2] == 's' && JsonSuffix[3] == 'o' && JsonSuffix[4] == 'n';
    }
    LastDotIs(fileName, d);
    assert fileName[..d] + fileName[d..] == fileName;
  }

  /** A file called just ".json" keeps its whole name as category name. */
  lemma DotJsonKeepsItsName()
    ensures CategoryName(".json") == ".json"
  {
    assert LastDot(".json") == Some(0);
  }

  /** The `product_category` table by name, and the next id it hands out. */
  datatype CategoryTable = CategoryTable(ids: map<string, nat>, nextId: nat)

  /** Ids are below the next one and no two names share one. */
  predicate CategoryInvariant(t: CategoryTable)
  {
    && (forall n :: n in t.ids ==> t.ids[n] < t.nextId)
    && (forall a, b :: a in t.ids && b in t.ids && a != b ==> t.ids[a] != t.ids[b])
  }

  /** `INSERT OR IGNORE INTO product_category (name) VALUES (?)` */
  function InsertOrIgnore(t: CategoryTable, name: string): (r: CategoryTable)
    ensures r.ids.Keys == t.ids.Keys + {name}
    ensures forall n :: n in t.ids ==> r.ids[n] == t.ids[n]
    ensures CategoryInvariant(t) ==> CategoryInvariant(r)
  {
    if name in t.ids then t else CategoryTable(t.ids[name := t.nextId], t.nextId + 1)
  }

  /** The category names of a list of files, in order. */
  function CategoryNames(files: seq<string>): (names: seq<string>)
    ensures |names| == |files| && forall i :: 0 <= i < |files| ==> names[i] == CategoryName(files[i])
  {
    seq(|files|, i requires 0 <= i < |files| => CategoryName(files[i]))
  }

  /** The first pass: one category per file, in listing order. Each name is stored
      once, existing categories keep their ids, and ids stay distinct. */
  function CreateCategories(t: CategoryTable, files: seq<string>): (r: CategoryTable)
    ensures forall f :: f in files ==> CategoryName(f) in r.ids
    ensures forall n :: n in r.ids && n !in t.ids ==> n in CategoryNames(files)
    ensures forall n :: n in t.ids ==> n in r.ids && r.ids[n] == t.ids[n]
    ensures CategoryInvariant(t) ==> CategoryInvariant(r)
  {
    if files == [] then t
    else
      var init := files[..|files| - 1];
      var last := files[|files| - 1];
      var before := CreateCategories(t, init);
      CategoryNamesSnoc(files);
      InsertOrIgnore(before, CategoryName(last))
  }

  lemma CategoryNamesSnoc(files: seq<string>)
    requires files != []
    ensures CategoryNames(files) == CategoryNames(files[..|files| - 1]) + [CategoryName(files[|files| - 1])]
  {
  }

  lemma CreateCategoriesSnoc(t: CategoryTable, files: seq<string>, i: nat)
    requires i < |files|
    ensures CreateCategories(t, files[..i + 1]) == InsertOrIgnore(CreateCategories(t, files[..i]), CategoryName(files[i]))
  {
    assert files[..i + 1][..i] == files[..i];
  }

  /** The second pass for one file: look its category up, load it, build its rows. */
  function FileRows(categories: map<string, nat>, load: string -> Option<CatalogFile>, fileName: string): Rows
  {
    var name := CategoryName(fileName);
    if name !in categories then Err(MissingCategory(name))
    else
      match load(fileName)
      case None => Err(UnreadableFile(fileName))
      case Some(data) => CatalogRows(categories[name], data)
  }

  function FileStep(categories: map<string, nat>, load: string -> Option<CatalogFile>): string -> Rows
  {
    fileName => FileRows(categories, load, fileName)
  }

  /** The whole migration: the category table and the product rows it commits, or
      the error that rolls it back. */
  function MigrationPlan(t: CategoryTable, listing: seq<string>, load: string -> Option<CatalogFile>)
    : Result<(CategoryTable, seq<ProductRow>), MigrationError>
  {
    var files := JsonFiles(listing);
    var categories := CreateCategories(t, files);
    match Collect(files, FileStep(categories.ids, load))
    case Err(e) => Err(e)
    case Ok(rows) => Ok((categories, rows))
  }

  /** All categories exist before any product is looked up, so no file fails
      for want of its category, and every row carries the id of its file's category. */
  lemma {:induction false} PlanRowsCategories(categories: CategoryTable, files: seq<string>,
                                              load: string -> Option<CatalogFile>)
    requires forall f :: f in files ==> CategoryName(f) in categories.ids
    requires Collect(files, FileStep(categories.ids, load)).Ok?
    ensures forall row :: row in Collect(files, FileStep(categories.ids, load)).value ==>
      exists f :: f in files && row.categoryId == SqlInt(categories.ids[CategoryName(f)])
    decreases |files|
  {
    if files != [] {
      var init := files[..|files| - 1];
      var last := files[|files| - 1];
      PlanRowsCategories(categories, init, load);
      var r := FileRows(categories.ids, load, last);
      assert FileStep(categories.ids, load)(last) == r;
      assert r.Ok?;
      var data := load(last).value;
      CatalogRowsCategory(categories.ids[CategoryName(last)], data);
      forall row | row in Collect(files, FileStep(categories.ids, load)).value
        ensures exists f :: f in files && row.categoryId == SqlInt(categories.ids[CategoryName(f)])
      {
        if row in r.value {
          assert last in files;
        } else {
          var f :| f in init && row.categoryId == SqlInt(categories.ids[CategoryName(f)]);
          assert f in files;
        }
      }
    }
  }

  /** Every row a committed plan adds carries the id of a listed file's category. */
  lemma PlanRowsHaveCategories(t: CategoryTable, listing: seq<string>, load: string -> Option<CatalogFile>)
    requires MigrationPlan(t, listing, load).Ok?
    ensures var (categories, rows) := MigrationPlan(t, listing, load).value;
      forall row :: row in rows ==>
        exists f :: f in listing && EndsWith(f, JsonSuffix)
          && row.categoryId == SqlInt(categories.ids[CategoryName(f)])
  {
    var files := JsonFiles(listing);
    var categories := CreateCategories(t, files);
    PlanRowsCategories(categories, files, load);
  }

  /** Building the rows of a loaded file fails only for a missing name or title. */
  lemma CatalogRowsErrors(categoryId: nat, data: CatalogFile)
    requires CatalogRows(categoryId, data).Err?
    ensures CatalogRows(categoryId, data).error in {MissingProductName, MissingServeTitle}
  {
    var food := data.food.GetOr([]);
    CollectErrorFrom(food, ProductStep(categoryId));
    var product :| product in food && ProductStep(categoryId)(product) == Err(CatalogRows(categoryId, data).error);
    var serves := product.serves.GetOr([]);
    assert Collect(serves, ServeStep(categoryId, product)).Err?;
    CollectErrorFrom(serves, ServeStep(categoryId, product));
  }

  /** Since every category is inserted before any product is looked up, the
      lookup of `fetchone()` never comes back empty. */
  lemma NoMissingCategory(t: CategoryTable, listing: seq<string>, load: string -> Option<CatalogFile>)
    ensures MigrationPlan(t, listing, load).Err? ==> !MigrationPlan(t, listing, load).error.MissingCategory?
  {
    var files := JsonFiles(listing);
    var categories := CreateCategories(t, files);
    var step := FileStep(categories.ids, load);
    if Collect(files, step).Err? {
      CollectErrorFrom(files, step);
      var f :| f in files && step(f) == Err(Collect(files, step).error);
      assert CategoryName(f) in categories.ids;
      var data := load(f);
      if data.Some? {
        CatalogRowsErrors(categories.ids[CategoryName(f)], data.value);
      }
    }
  }

  /** The catalogue database: the two tables the migration writes. */
  class CatalogDb {
    var categories: map<string, nat>
    var nextCategoryId: nat
    var products: seq<ProductRow>

    function CategoryState(): CategoryTable
      reads this
    {
      CategoryTable(categories, nextCategoryId)
    }

    ghost predicate Valid()
      reads this
    {
      CategoryInvariant(CategoryState())
    }

    constructor ()
      ensures Valid() && categories == map[] && nextCategoryId == 1 && products == []
    {
      categories := map[];
      nextCategoryId := 1;
      products := [];
    }

    /**
     * `migrate_product_data`. `listing` is the directory listing and `load`
     * stands for `load_json_file` (`None` when reading or parsing fails).
     * Nothing is written unless everything succeeds.
     */
    method MigrateProductData(listing: seq<string>, load: string -> Option<CatalogFile>)
      returns (outcome: MigrationOutcome)
      requires Valid()
      modifies this
      ensures Valid()
      ensures var plan := MigrationPlan(old(CategoryState()), listing, load);
        && (plan.Ok? ==> outcome == Committed && CategoryState() == plan.value.0
                         && products == old(products) + plan.value.1)
        && (plan.Err? ==> outcome == RolledBack(plan.error)
                          && CategoryState() == old(CategoryState()) && products == old(products))
    {
      var files := JsonFiles(listing);
      // the transaction's view of the category table
      var pendingCategories := InsertCategories(CategoryState(), files);
      var rows := LoadProductRows(pendingCategories.ids, files, load);
      if rows.Err? {
        return RolledBack(rows.error);
      }
      categories, nextCategoryId := pendingCategories.ids, pendingCategories.nextId;
      products := products + rows.value;
      outcome := Committed;
    }
  }

  /** The first pass of the migration: `INSERT OR IGNORE` of each file's category, in order. */
  method InsertCategories(t: CategoryTable, files: seq<string>) returns (r: CategoryTable)
    ensures r == CreateCategories(t, files)
  {
    var ids, nextId := t.ids, t.nextId;
    for i := 0 to |files|
      invariant CategoryTable(ids, nextId) == CreateCategories(t, files[..i])
    {
      CreateCategoriesSnoc(t, files, i);
      var name := CategoryName(files[i]);
      if name !in ids {
        ids := ids[name := nextId];
        nextId := nextId + 1;
      }
    }
    assert files[..|files|] == files;
    r := CategoryTable(ids, nextId);
  }

  /** The rows of one product, serving by serving. */
  method LoadServeRows(categoryId: nat, product: Product) returns (r: Rows)
    ensures r == ProductRows(categoryId, product)
  {
    var serves := product.serves.GetOr([]);
    var step := ServeStep(categoryId, product);
    var pending: seq<ProductRow> := [];
    for j := 0 to |serves|
      invariant Collect(serves[..j], step) == Ok(pending)
    {
      CollectPrefix(serves, j, step);
      var rows := ServeRows(categoryId, product, serves[j]);
      assert step(serves[j]) == rows;
      if rows.Err? {
        CollectErrorSticks(serves, j + 1, step);
        return Err(rows.error);
      }
      pending := pending + rows.value;
    }
    assert serves[..|serves|] == serves;
    r := Ok(pending);
  }

  /** The rows of one loaded file, product by product. */
  method LoadCatalogRows(categoryId: nat, data: CatalogFile) returns (r: Rows)
    ensures r == CatalogRows(categoryId, data)
  {
    var food := data.food.GetOr([]);
    var step := ProductStep(categoryId);
    var pending: seq<ProductRow> := [];
    for i := 0 to |food|
      invariant Collect(food[..i], step) == Ok(pending)
    {
      CollectPrefix(food, i, step);
      var rows := LoadServeRows(categoryId, food[i]);
      assert step(food[i]) == rows;
      if rows.Err? {
        CollectErrorSticks(food, i + 1, step);
        return Err(rows.error);
      }
      pending := pending + rows.value;
    }
    assert food[..|food|] == food;
    r := Ok(pending);
  }

  /** The second pass of the migration: for each file in turn, the id of its
      category (`fetchone()` finding no row is an error), its contents, its rows. */
  method LoadProductRows(categories: map<string, nat>, files: seq<string>,
                         load: string -> Option<CatalogFile>) returns (r: Rows)
    ensures r == Collect(files, FileStep(categories, load))
  {
    var step := FileStep(categories, load);
    var pending: seq<ProductRow> := [];
    for i := 0 to |files|
      invariant Collect(files[..i], step) == Ok(pending)
    {
      CollectPrefix(files, i, step);
      var fileName := files[i];
      var name := CategoryName(fileName);
      if name !in categories {
        CollectErrorSticks(files, i + 1, step);
        return Err(MissingCategory(name));
      }
      var data := load(fileName);
      if data.None? {
        CollectErrorSticks(files, i + 1, step);
        return Err(UnreadableFile(fileName));
      }
      var rows := LoadCatalogRows(categories[name], data.value);
      if rows.Err? {
        CollectErrorSticks(files, i + 1, step);
        return Err(rows.error);
      }
      pending := pending + rows.value;
    }
    assert files[..|files|] == files;
    r := Ok(pending);
  }
}
