# Semaphore back end: recipes, Telegram sign-in, users and catalogue migration

This project models in Dafny the parts of the Semaphore back end that carry
logic rather than plumbing, and proves what they promise.

- **Recipes** (`recipe_inserter.py`). A recipe record is checked field by
  field and rewritten for the `recipes` table:
  - ingredient lists are joined with line feeds;
  - instruction steps are numbered unless they already start with their
    number, and `instructions` is renamed to `preparation`;
  - the record is stored.

  Reading the table splits the stored text back into lines.
- **Telegram Mini App sign-in** (`main.py`, `backend/main.py`). The launch
  payload is checked as in the Telegram Bot API procedure "Validating data
  received via the Mini App":
  - the data-check string is built from the sorted fields other than
    `hash`, using the first value of each, joined by line feeds;
  - it is compared, by HMAC-SHA-256 under a key derived from the bot token,
    with the received `hash`.

  `main.py` then finds or creates the user the payload names, and lets the
  user complete onboarding. `backend/main.py` only answers whether the
  payload is genuine.
- **Catalogue migration** (`data_migration.py`). It runs in one transaction
  and has two passes:
  - one product category per JSON file;
  - one `product` row per serving that carries a full FODMAP vector, with
    the FODMAP values permuted into their columns, six allergy flags and the
    first replacement's name.

  The transaction commits after the last row, or rolls back on the first
  error.

Modules:

- `Wrappers`: `Option` and `Result`.
- `PyText`: the Python string operations the code relies on:
  - `str.join` and `str.split` on one character;
  - `strip` with Python's whitespace set, and `startswith`/`endswith`;
  - `str(n)`.
- `KeyOrder`: Python's string order, and `sorted()` over dictionary keys.
- `TelegramInitData`: the payload check. The two files carry identical copies
  of `validate_telegram_data` (`main.py:31-60`, `backend/main.py:21-50`); it
  is modelled once.
- `Http` and `Users`: the user table and the two user endpoints of `main.py`.
- `BackendAuth`: the stateless endpoint of `backend/main.py`.
- `Recipes`: `recipe_inserter.py`.
- `Migration`: `data_migration.py`.

State follows the source:

- The user table, the recipe table and the catalogue database are classes,
  and their operations are methods.
- Each method's postcondition ties the new state and the answer to a function
  of the old state. The properties are proved about that function.
- The append loops are `for` loops with invariants: the numbering of steps,
  the data-check lines, the recipe read-back, and the category and product
  passes of the migration.

Hashing, JSON and query-string parsing, and file reading are parameters:

- The `Crypto` record carries UTF-8 encoding, HMAC digest and hex digest as
  functions.
- The result of `parse_qs` is `map<string, seq<string>>`.
- `json.loads` of the user field is a function returning `UserJson`.
- `load_json_file` is a function returning `Option<CatalogFile>`.

Behaviours of the code that the model keeps:

- In `auth_telegram` (`main.py`), the two `HTTPException(400)` raised inside
  the `try` (lines 90-102) are caught by its `except Exception`, so the
  client gets 500 for them. Only malformed JSON in the `user` field gets 400.
- A `user` object without `id` yields the telegram id `"None"`. Only an `id`
  whose text is empty reaches the check at line 98 (and then becomes a 500).
- Step numbering tests the text. `"10 eggs"` counts as already numbered at
  step 1.
- The category name is `os.path.splitext(name)[0]`, modelled exactly:
  - `"fruit.json"` gives `"fruit"`;
  - `".json"` keeps its whole name, because a leading dot starts no
    extension.

## Model

| member | source | states |
|---|---|---|
| Recipes.CheckFields | recipe_inserter.py:19-29 | true exactly when every listed field is present with an accepted type; the message is empty on success; otherwise the answer is false with the message of the first failing field |
| Recipes.ValidateRecipe | recipe_inserter.py:6-31 | `(True, "")` exactly when name and image_name are strings and ingredients and instructions are lists or strings; otherwise the message names the first field, in the order name, image_name, ingredients, instructions, that is missing or mistyped |
| Recipes.ValidationIgnoresOtherKeys | recipe_inserter.py:19-31 | adding or changing a key other than the four required ones never changes the verdict or the message |
| Recipes.NumberStepIsNumbered | recipe_inserter.py:48-50 | step n, once stripped, starts with `str(n)`; the line is either kept or prefixed with `"n. "` |
| Recipes.NumberStepsAreNumbered | recipe_inserter.py:46-52 | numbering keeps the length of the list, and every line i (from 1), stripped, starts with `str(i)` |
| Recipes.NumberedLinesKept | recipe_inserter.py:49-51 | lines that already start with their number are kept verbatim |
| Recipes.NumberStepsIdempotent | recipe_inserter.py:46-52 | numbering an already numbered list changes nothing |
| Recipes.TenEggsCountsAsStepOne | recipe_inserter.py:49 | the textual test takes "10 eggs" as step 1 already numbered |
| Recipes.FormatRecipe | recipe_inserter.py:33-57 | the result is the formatted copy of the record: list ingredients joined, list instructions numbered then joined, `instructions` moved to `preparation` |
| Recipes.FormattedShape | recipe_inserter.py:38-55 | the keys are the input's keys minus `instructions` plus `preparation`; other keys keep their values; lists are joined and steps numbered; strings pass through |
| Recipes.StoredListRoundTrip | recipe_inserter.py:122 | splitting a stored joined list gives the list back when no element holds a line feed and the list is not `[""]` |
| Recipes.StoredTextRoundTrip | recipe_inserter.py:122-123 | joining the lines read back gives the stored text back, the empty text included |
| Recipes.PreparationRoundTrip | recipe_inserter.py:123 | the stored preparation is read back as exactly the numbered steps |
| Recipes.InsertThenRead | recipe_inserter.py:80-88 | a stored recipe reads back with its name, its image name, its ingredient list and its numbered steps |
| Recipes.RecipeStore.InsertRecipe | recipe_inserter.py:59-100 | unparsable JSON gives "Invalid JSON format"; a rejected record gives the validator's answer; a database error gives "Database error: ..."; the table changes only on success, by exactly one formatted row |
| Recipes.RecipeStore.GetAllRecipes | recipe_inserter.py:116-127 | one view per stored row, in table order, with both text columns split into lines and the empty text read as `[]` |
| PyText.SplitJoin | recipe_inserter.py:42 | splitting a join of one or more line-free parts gives the parts back |
| PyText.JoinSplit | recipe_inserter.py:122 | joining the pieces of a split gives the text back, for every text |
| PyText.Decimal | recipe_inserter.py:49 | `str(n)` is a string of decimal digits whose value is n, with no leading zero ("0" for zero), and has one digit exactly when n is below 10 |
| PyText.StripKeepsNumeral | recipe_inserter.py:49-50 | a text starting with a number still starts with it after `strip` |
| KeyOrder.SortedKeys | main.py:47 | `sorted()` of a key set: strictly ascending in Python's string order, each key exactly once |
| KeyOrder.SortedUnique | main.py:47 | two ascending listings of the same keys are equal |
| KeyOrder.SortedWithout | main.py:47-48 | skipping `hash` in the sorted listing is the sorted listing of the keys other than `hash` |
| TelegramInitData.ValidateTelegramData | main.py:31-60 | true exactly when the payload parsed, carries a non-empty `hash`, every signed field has a value, and the hex HMAC of the data-check string under HMAC("WebAppData", token) equals the first `hash` value; false on every exception path |
| TelegramInitData.SignedFields | main.py:45-50 | the loop yields one `key=first value` entry per key other than `hash`, in ascending key order, or fails exactly when a field has no value |
| TelegramInitData.Fields | backend/main.py:37-40 | one `key=first value` entry per listed key, in the listed order |
| TelegramInitData.DataCheckLines | main.py:47-52 | splitting the data-check string at line feeds gives one `key=first value` line per field other than `hash`, each key once, strictly ascending |
| TelegramInitData.DataCheckStringEmpty | main.py:52 | a payload with nothing besides `hash` signs the empty string: no trailing separator |
| TelegramInitData.DataCheckStringUsesFirstValues | backend/main.py:37-42 | the data-check string depends only on the signed fields' first values, not on later values or on `hash` |
| TelegramInitData.ValidityUsesFirstValues | main.py:44-57 | the verdict depends only on the first values of the fields and of `hash` |
| Users.TelegramIdOf | main.py:87-102 | a missing or empty `user` field and a non-object give 500, malformed JSON gives 400, an object without `id` gives "None", an object whose `id` is s gives s (500 when s is empty), and an id is never empty |
| Users.FindOrCreate | main.py:104-120 | the user is found exactly when its telegram id is in the table, and then the table is unchanged; otherwise a user with the next id, that telegram id and onboarding not completed is added and the next id advances; either way the id maps to the returned user afterwards, only that key is added, and no existing user changes |
| Users.Authenticate | main.py:66-133 | no token gives 500 and an invalid payload 401, both before any lookup and with the table untouched; an existing user is returned unchanged; otherwise exactly one new user is added, with the next id and onboarding not completed; existing users are never changed; with a genuine payload, a failed id extraction answers its status, and otherwise the outcome is the stored user for that id, or a new user with the next id, that id and onboarding not completed |
| Users.AuthenticatePreservesInvariant | main.py:105-116 | signing in keeps every row under its own telegram id, and ids distinct and below the next id |
| Users.AuthenticateIdempotent | main.py:104-120 | a second sign-in with the same payload changes nothing and finds the user the first one found or created |
| Users.Onboard | main.py:135-151 | an unknown user gives 404; an onboarded user is returned with no change; otherwise only that user's flag becomes true, with the same id and telegram id, and the key set is unchanged |
| Users.OnboardIdempotent | main.py:144-151 | completing onboarding twice leaves the table as once, and the second call reports it already completed |
| Users.OnboardPreservesInvariant | main.py:147-149 | completing onboarding keeps the table invariant |
| Users.UserStore.AuthTelegram | main.py:66-133 | the endpoint's answer and the new table are those of `Authenticate` on the old table, and the invariant is kept |
| Users.UserStore.CompleteOnboarding | main.py:135-151 | the endpoint's answer and the new table are those of `Onboard` on the old table, and the invariant is kept |
| BackendAuth.AuthTelegram | backend/main.py:56-81 | no token gives 500 before validation; otherwise success exactly when the payload is genuine, with a fixed message, and 401 when it is not; the only rejections are 500 and 401 |
| BackendAuth.AgreesWithUserEndpoint | backend/main.py:58-70 | both endpoints reject the same requests with the same status before any user lookup; every payload `main.py` accepts is accepted here too |
| Migration.JsonFiles | data_migration.py:18 | a name is kept exactly when it is listed and ends in ".json" |
| Migration.JsonFilesAppend | data_migration.py:18 | filtering a listing is filtering its parts one after the other, and a single name is kept exactly when it ends in ".json", so the kept names stay in listing order |
| Migration.CategoryName | data_migration.py:23 | `os.path.splitext(f)[0]`: a prefix of the name; shorter than the name exactly when some non-dot character precedes a dot, and then it ends just before the last dot |
| Migration.CategoryNameDropsSuffix | data_migration.py:23 | the category of "x.json" is x whenever x is not made only of dots |
| Migration.DotJsonKeepsItsName | data_migration.py:23 | a file named ".json" gets category ".json" |
| Migration.InsertOrIgnore | data_migration.py:24-27 | adds the name if it is absent, keeps existing ids, and keeps ids distinct |
| Migration.CreateCategories | data_migration.py:22-27 | after the first pass every file's category exists; no other name is added; existing categories keep their ids; ids stay distinct |
| Migration.ReplacementName | data_migration.py:57-58 | the name of the first replacement when there is one and it has a name, and null otherwise |
| Migration.ServeRows | data_migration.py:44-87 | a serving with fewer than 9 FODMAP values gives no row; a missing product name or serving title is an error; otherwise one row, with fructose, lactose, sorbitol, mannitol, fructan, GOS and grams taken from FODMAP values 0, 1, 2, 3, 4, 5 and 8, six flags true exactly when allergy codes 0 to 5 are listed, and the first replacement's name or null |
| Migration.CollectErrorSticks | data_migration.py:92-95 | once a file, product or serving fails, the whole pass fails with that error |
| Migration.ProductRowsOnePerServe | data_migration.py:44-46 | a product yields exactly one row per qualifying serving, in serving order, each with that serving's title |
| Migration.CatalogRowsOnePerServe | data_migration.py:43-46 | a file yields as many rows as its products have qualifying servings; a missing `food` or `serves` yields none |
| Migration.ProductRowsCategory | data_migration.py:71 | every row of a product carries the category id it was given |
| Migration.CatalogRowsCategory | data_migration.py:39-43 | every row of a file carries its category id |
| Migration.CatalogRowsErrors | data_migration.py:70-78 | building a file's rows fails only for a missing product name or serving title |
| Migration.PlanRowsHaveCategories | data_migration.py:30-39 | every row a committed migration adds carries the id of the category of a listed ".json" file |
| Migration.NoMissingCategory | data_migration.py:22-39 | the category lookup never comes back empty, because every category is inserted before any product |
| Migration.InsertCategories | data_migration.py:22-27 | the first-pass loop computes the category table of the first pass |
| Migration.LoadServeRows | data_migration.py:44-87 | the serving loop yields the rows of the product, or its first error |
| Migration.LoadCatalogRows | data_migration.py:43-87 | the product loop yields the rows of the file, or its first error |
| Migration.LoadProductRows | data_migration.py:30-87 | the second-pass loop yields the rows of every file in order, or the first error |
| Migration.CatalogDb.MigrateProductData | data_migration.py:11-98 | on success the categories are those of the first pass and the products gain exactly the planned rows; on any error the outcome carries it and neither table changes |

## Left out

- The FODMAP phase-tracking and streak engine is not part of this model: no source for it is among the modelled files.
- HMAC-SHA-256, hex encoding and UTF-8 encoding are opaque functions of the `Crypto` parameter; only the string that is signed and the decision are modelled.
- `parse_qs` and `unquote` are not modelled. Their result is an input, and `None` stands for the case where both parse attempts raised.
- `json.loads` and `json.load` are not modelled. `load` returning `None` stands for every failure to read or parse a catalogue file, a top-level value that is not an object included.
- `os.listdir`, file paths and the database connection are not modelled. The listing is an input, and the tables are fields of the store classes.
- `ORDER BY created_at DESC` is not modelled. `get_all_recipes` returns the rows in table order, and `created_at`/`updated_at` are not modelled.
- Recipes.RecipeStore.InsertRecipe: the parsed document is an object; other top-level JSON values are not modelled. An array or a string goes through the membership test of recipe_inserter.py:20-21 as an element or substring search, so it answers "Missing required field: name" unless it contains "name". A number, a boolean or null reaches the generic `Error: ...` branch at recipe_inserter.py:99-100. A list field holding a non-string element, which also reaches that branch, is not modelled either: field values are strings, lists of strings, or other values.
- Recipes.RecipeStore.GetAllRecipes: database errors are not modelled.
- Users.Authenticate: a failing database commit is not modelled (the code would answer 500). The JSON bodies of the responses are not modelled; the outcome carries the user record instead.
- Migration.ServeRows: FODMAP values and allergy codes are integers, and replacement entries are objects; other JSON types are not modelled.
- Migration.CatalogDb.MigrateProductData: the re-raise after rollback is the `RolledBack` outcome, and the `print` calls are not modelled.
- FastAPI routing, `.env` loading, the root endpoint, `bot.py` and the `main()` demo of `recipe_inserter.py` are outside the modelled logic.
