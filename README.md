# laravel-model-nanoid, modelled in Dafny

laravel-model-nanoid attaches random NanoID strings to Eloquent models. A model
declares its NanoID columns with `nanoIdColumns()`. The declaration can hold:

- a bare name at a numeric key;
- a `['key' => …, 'size' => …, 'alphabets' => …]` array at a numeric key;
- an override array at a string key.

A creating hook normalises the declaration into a list of column records. Every
column whose attribute is unset or null then gets `NanoId::nanoId($size, $alphabets)`.
Two traits add a primary-key section to this hook:

- `GeneratesNanoIdAsPrimaryKey` runs next to the `GeneratesNanoId` fill hook.
- `GeneratesPrimaryKeyNanoId` has its own, laxer parser `parseColumns`.

The primary-key section does three things:

- it overwrites `nanoIdColumn()` (by default `id`) with a fresh default NanoID;
- it switches the model to string, non-incrementing keys;
- it gives the Eloquent key a fresh NanoID unless it is already truthy.

`scopeWhereNanoId` picks the column a route lookup filters on.

The project has these modules:

- `Php`: the PHP values the declarations are made of. It covers int and string
  array keys, truthiness, `?:`, `array_key_exists`, a missing key reading as null,
  `in_array`, and `is_numeric`, written as a recogniser for PHP 8 numeric strings.
- `NanoIdLib`: the external generator. It is an abstract function: the k-th call
  with a given size and alphabet returns `draw(k, size, alphabet)`. A `Generator`
  object counts the calls. `SIZE_DEFAULT` and `ALPHABET_DEFAULT` are a `Defaults`
  parameter. So every property holds whatever the generator returns.
- `Records`: the model object, a `Record` class. Its `attributes` map, `keyType`
  and `incrementing` are updated in place.
- `Columns`: what both parsers share. This is the `array_map` + `array_filter`
  pipeline, with its order and filtering lemmas. It also holds the attribute name a
  resolved `'key'` gives, and the lookup-column choice of `scopeWhereNanoId`. That
  choice is written identically in src/GeneratesNanoId.php:53-58 and
  src/GeneratesPrimaryKeyNanoId.php:132-137.
- `GeneratesNanoId`: the strict normaliser `transformNanoIdColumns`, the fill
  loop (a method on `Record`, proved against the recursive function `Fill`) and
  the `bootGeneratesNanoId` hook.
- `GeneratesNanoIdAsPrimaryKey`: the primary-key section, the constant getters,
  and how the section composes with the inherited fill hook in either order.
- `GeneratesPrimaryKeyNanoId`: `parseColumns` as written and as corrected, its
  equivalence with the strict normaliser, the combined hook and `getRouteKeyName`.

The source's own documentation says the primary key is generated only when it has
not been set. The code overwrites `nanoIdColumn()` unconditionally
(src/GeneratesNanoIdAsPrimaryKey.php:43, src/GeneratesPrimaryKeyNanoId.php:46).
The model follows the code.

## Model

| member | source | states |
|---|---|---|
| Php.TruthinessExamples | src/GeneratesNanoId.php:145 | false, 0, 0.0, "", "0", null and `[]` are falsy; "00", " ", -1 and a non-empty array are truthy |
| Php.Lookup | src/GeneratesNanoId.php:140 | `$value['size']` reads the stored entry, or null when the key is missing |
| Php.Find | src/GeneratesNanoId.php:135 | an array read finds an entry exactly when one is stored under that key, and returns its value |
| Php.ArrayAccessExamples | src/GeneratesNanoId.php:56-58 | on `['a' => [], 'b']`: `array_key_exists`, reads of present and missing keys, `in_array` on values only, and not a list |
| Php.Elvis | src/GeneratesNanoId.php:145 | `$v ?: $fallback` is `$v` when truthy and the fallback otherwise |
| Php.DigitsAreNumeric | src/GeneratesNanoId.php:96-101 | a non-empty run of digits is numeric, so a list index takes the numeric-key branch |
| Php.LetterLedIsNotNumeric | src/GeneratesNanoId.php:96-101 | a key starting with a letter or `_` is not numeric, so it takes the string-key branch |
| Php.NumericStringExamples | src/GeneratesNanoId.php:98 | `is_numeric` accepts "1.5", ".5", "1.", "-0", " 12 " and "1e3" |
| Php.NonNumericStringExamples | src/GeneratesNanoId.php:98 | `is_numeric` rejects "", ".", "1e", "0x1A" and "12abc" |
| NanoIdLib.Generator.NanoId | src/GeneratesNanoId.php:73 | each generator call returns the output for its own call index, and the call count grows by one |
| Records.IsSetExamples | src/GeneratesNanoId.php:72 | `isset` treats a missing or null attribute as unset and `""` or `false` as set |
| Records.Attribute | src/GeneratesNanoIdAsPrimaryKey.php:46 | reading `$model->{$name}` gives the set attribute, or null when it is unset |
| Columns.MapEntries | src/GeneratesNanoId.php:82-86 | `array_map` succeeds iff the callback succeeds on every entry; the result matches entry for entry; otherwise the error comes from the first failing entry |
| Columns.Resolve | src/GeneratesNanoId.php:80-88 | the filtered list exists iff no entry errs, and it is no longer than the declaration |
| Columns.ResolveInOrder | src/GeneratesNanoId.php:80-88 | each kept entry sits at its rank and ranks strictly grow, so kept entries stay in order and none is duplicated |
| Columns.ResolveOrigin | src/GeneratesNanoId.php:87 | the converse: every filtered column is the mapping of one entry, sitting at that entry's rank, so the output holds nothing else |
| Columns.ResolveSkipsNull | src/GeneratesNanoId.php:87 | an entry mapped to null can be removed from the declaration without changing the result |
| Columns.ResolvePointwise | src/GeneratesPrimaryKeyNanoId.php:89-118 | two callbacks that agree on every entry resolve the declaration identically |
| Columns.ColumnName | src/GeneratesNanoId.php:71-73 | a string `'key'` names that attribute and an int names the attribute spelled by its decimal string; any other value names none |
| Columns.DigitsRoundTrip | src/GeneratesNanoId.php:72 | the decimal digits of a non-negative int read back as that int |
| Columns.DecimalStringInjective | src/GeneratesNanoId.php:72 | distinct int `'key'`s name distinct attributes |
| Columns.DecimalStringExamples | src/GeneratesNanoId.php:72 | 42, -3 and 0 are spelled "42", "-3" and "0", and the int `'key'` 42 names the attribute "42" |
| Columns.FirstDeclared | src/GeneratesNanoId.php:58 | `nanoIdColumns()[0]` is the value stored under key 0, or null when key 0 is absent; for a non-empty list it is the first name |
| Columns.WhereNanoIdColumn | src/GeneratesNanoId.php:53-58 | a requested column found in `nanoIdColumns()` is used; otherwise the value under key 0, or null when key 0 is absent |
| Columns.WhereResolvedColumn | src/GeneratesNanoId.php:53-58 | corrected choice among the resolved columns: the requested one if some resolved column has that name, else the first resolved column; none only when nothing resolves |
| GeneratesNanoId.NanoIdColumns | src/GeneratesNanoId.php:39-42 | the default declaration is the one-entry list `[nanoIdColumn()]` |
| GeneratesNanoId.NanoIdDefaults | src/GeneratesNanoId.php:29-42 | the defaults `'nanoid'` / `['nanoid']` resolve to the single default column `nanoid`, which every lookup uses |
| GeneratesNanoId.KeyOrDefault | src/GeneratesNanoId.php:133-136 | the name is the declared `'key'` when it is a string, otherwise the map key |
| GeneratesNanoId.SizeOrDefault | src/GeneratesNanoId.php:138-141 | the size is the declared one only when it is a non-zero int, otherwise `SIZE_DEFAULT` |
| GeneratesNanoId.AlphabetsOrDefault | src/GeneratesNanoId.php:143-146 | the alphabets are the declared ones when truthy, otherwise `ALPHABET_DEFAULT` |
| GeneratesNanoId.ColumnFromArrayValue | src/GeneratesNanoId.php:113-121 | a column exactly for an array holding `'key'`, named by that `'key'`; the declared size when it is a non-zero int, else the default; the declared alphabets when truthy, else the default |
| GeneratesNanoId.ColumnFromStringValue | src/GeneratesNanoId.php:103-111 | a string gives the default column of that name; any other value is handled as `getColumnFromArrayValue` handles it |
| GeneratesNanoId.ColumnFromStringKey | src/GeneratesNanoId.php:123-131 | an int key gives null; a string key with a non-array is a TypeError; with an array it gives the column named by a string `'key'` or else the map key, with size and alphabets falling back to the defaults |
| GeneratesNanoId.MapColumn | src/GeneratesNanoId.php:96-131 | the three declaration shapes and their results; null for anything else at a numeric key; a TypeError for a non-array at a string key; sizes and alphabets always non-zero/truthy or the default |
| GeneratesNanoId.Transform | src/GeneratesNanoId.php:80-88 | `transformNanoIdColumns` throws a TypeError iff some string-keyed entry holds a non-array (the typed `array $value` helpers at lines 133-143); otherwise its list is no longer than the declaration |
| GeneratesNanoId.BareNamesNormalise | src/GeneratesNanoId.php:103-111 | a declaration of bare names normalises, entry for entry, to those names with the default size and alphabet |
| GeneratesNanoId.TransformDropsUnrecognised | src/GeneratesNanoId.php:113-121 | a numeric-key entry that is neither a string nor a key-bearing array is dropped without a trace |
| GeneratesNanoId.TransformInOrder | src/GeneratesNanoId.php:80-88 | every recognised entry appears at its position, positions strictly grow, and the output is at most as long as the input |
| GeneratesNanoId.TransformOrigin | src/GeneratesNanoId.php:80-88 | every output column is the mapping of one declaration entry at that entry's position, so the output holds nothing but the recognised entries |
| GeneratesNanoId.Fill | src/GeneratesNanoId.php:70-75 | the loop makes at most one generator call per column, and completes iff every column has a usable name |
| GeneratesNanoId.FillKeepsSet | src/GeneratesNanoId.php:72 | an attribute already set is never overwritten |
| GeneratesNanoId.FillLeavesOthers | src/GeneratesNanoId.php:70-75 | an attribute no column names is untouched, whether present or absent |
| GeneratesNanoId.FillSetsEveryColumn | src/GeneratesNanoId.php:70-75 | after a completed loop every resolved column's attribute is set |
| GeneratesNanoId.FillFirstWins | src/GeneratesNanoId.php:70-75 | an unset attribute gets a NanoID drawn with the size and alphabets of the first column naming it |
| GeneratesNanoId.FillColumns | src/GeneratesNanoId.php:70-75 | the in-place loop leaves exactly the attributes and call count of `Fill` |
| GeneratesNanoId.NanoIdHook | src/GeneratesNanoId.php:66-78 | the hook lets the model be created iff the declaration normalises and every column has a usable name |
| GeneratesNanoId.BootGeneratesNanoId | src/GeneratesNanoId.php:66-78 | the in-place hook leaves exactly the state `NanoIdHook` describes |
| GeneratesNanoId.NanoIdHookFrame | src/GeneratesNanoId.php:66-78 | set attributes and attributes outside the declaration are unchanged by the hook |
| GeneratesNanoId.NanoIdHookDefaultColumn | src/GeneratesNanoId.php:29-42 | with the default `[nanoIdColumn()]`, an unset column gets the first default NanoID and a set one is kept |
| GeneratesNanoId.LookupDefaultColumn | src/GeneratesNanoId.php:39-42 | with the default declaration the lookup always uses `nanoIdColumn()` |
| GeneratesNanoId.LookupAgreesOnNameLists | src/GeneratesNanoId.php:53-58 | on a list of bare names the lookup as written equals the lookup among resolved columns |
| GeneratesNanoId.LookupFixture | tests/Fixtures/MultipleNanoIdRouteBoundPost.php:11-16 | for `['nanoId', 'custom_nanoId']` the route field `custom_nanoId` is used, and no field or an undeclared one gives `nanoId` |
| GeneratesNanoId.LookupIgnoresResolvedNames | src/GeneratesNanoId.php:53-58 | for `['nanoid' => ['size' => 10]]` the lookup as written gives null, although the declaration resolves to the column `nanoid` |
| GeneratesNanoId.TransformExamples | src/GeneratesNanoId.php:103-121 | `['nanoid']` gives the default column and `[42]` gives nothing |
| GeneratesNanoId.TransformOverrideExample | src/GeneratesNanoId.php:113-121 | a bare name followed by a key-bearing array with size 10 gives two columns in declaration order |
| GeneratesNanoId.StringKeyExample | src/GeneratesNanoId.php:123-131 | an empty override under a string key names the column after that key |
| GeneratesNanoId.StringKeyRenameExample | src/GeneratesNanoId.php:133-136 | a string `'key'` under a string key renames the column and keeps the declared alphabets |
| GeneratesNanoId.StringKeyRejections | src/GeneratesNanoId.php:133-136 | a non-string `'key'` is ignored, and a string value under a string key is a TypeError |
| GeneratesNanoId.FallbackExamples | src/GeneratesNanoId.php:138-146 | sizes 0, null, missing and "10" fall back while -3 passes; alphabets "" and "0" fall back |
| GeneratesNanoIdAsPrimaryKey.GetIncrementing | src/GeneratesNanoIdAsPrimaryKey.php:52-55 | keys never auto-increment |
| GeneratesNanoIdAsPrimaryKey.GetKeyType | src/GeneratesNanoIdAsPrimaryKey.php:57-60 | the key type is always `'string'` |
| GeneratesNanoIdAsPrimaryKey.PrimaryKeySection | src/GeneratesNanoIdAsPrimaryKey.php:42-46 | `nanoIdColumn()` always ends up with a fresh default NanoID; the key keeps a truthy value or gets the second call; when the key is `nanoIdColumn()` itself, a truthy first call is kept with no second call, and a falsy one is replaced by the second; nothing else changes |
| GeneratesNanoIdAsPrimaryKey.ConfigurePrimaryKey | src/GeneratesNanoIdAsPrimaryKey.php:40-48 | the in-place section leaves the attributes of `PrimaryKeySection`, and string, non-incrementing keys |
| GeneratesNanoIdAsPrimaryKey.DeclaresPrimaryKeyColumn | src/GeneratesNanoIdAsPrimaryKey.php:67-70 | the inherited `nanoIdColumns()` is `['id']`, which resolves to the default column `id` |
| GeneratesNanoIdAsPrimaryKey.KeySectionAfterFill | src/GeneratesNanoIdAsPrimaryKey.php:40-48 | if the fill hook runs first, the section still leaves `nanoIdColumn()` holding a default NanoID |
| GeneratesNanoIdAsPrimaryKey.FillAfterKeySection | src/GeneratesNanoIdAsPrimaryKey.php:40-48 | if the section runs first, the fill hook leaves `nanoIdColumn()` and the key alone |
| GeneratesNanoIdAsPrimaryKey.CreatingHooks | src/GeneratesNanoIdAsPrimaryKey.php:25-48 | in either hook order the model is created iff the declaration normalises with usable names; a created model holds a default NanoID in `nanoIdColumn()`, and its key is set, keeping a truthy value or holding a fresh default NanoID |
| GeneratesNanoIdAsPrimaryKey.CreatingKeepsSet | src/GeneratesNanoIdAsPrimaryKey.php:25-48 | in either order, any other attribute set before creation keeps its value |
| GeneratesNanoIdAsPrimaryKey.Creating | src/GeneratesNanoIdAsPrimaryKey.php:25-48 | the in-place hooks leave exactly the attributes, call count and outcome of `CreatingHooks`; keys become string and non-incrementing once the primary-key section has run |
| GeneratesPrimaryKeyNanoId.ParseEntry | src/GeneratesPrimaryKeyNanoId.php:90-115 | the lax callback: never throws at a numeric key; null exactly for unrecognised numeric-key entries; `'key'` taken whatever its type; plain `?:` fallbacks; a TypeError for a non-array at a string key |
| GeneratesPrimaryKeyNanoId.ParseEntryAsWritten | src/GeneratesPrimaryKeyNanoId.php:90 | the `: array` return type turns every null result into a TypeError and leaves other results alone |
| GeneratesPrimaryKeyNanoId.ParseColumns | src/GeneratesPrimaryKeyNanoId.php:87-120 | corrected `parseColumns`: a TypeError only for a string-keyed non-array, otherwise a list no longer than the declaration |
| GeneratesPrimaryKeyNanoId.ParseColumnsAsWritten | src/GeneratesPrimaryKeyNanoId.php:87-120 | `parseColumns` as written succeeds iff every entry yields a column, and fails only with a TypeError |
| GeneratesPrimaryKeyNanoId.AsWrittenFailsOnUnrecognised | src/GeneratesPrimaryKeyNanoId.php:99-107 | as written, one unrecognised numeric-key entry makes `parseColumns` throw |
| GeneratesPrimaryKeyNanoId.AsWrittenAgreesWhenNothingDropped | src/GeneratesPrimaryKeyNanoId.php:87-120 | when no entry maps to null, the written and the corrected parser agree |
| GeneratesPrimaryKeyNanoId.ParseColumnsNullEntry | src/GeneratesPrimaryKeyNanoId.php:106 | `[42]` throws as written but is dropped by the corrected parser and by `transformNanoIdColumns` |
| GeneratesPrimaryKeyNanoId.ParseColumnsDropsUnrecognised | src/GeneratesPrimaryKeyNanoId.php:119 | the corrected parser drops an unrecognised entry without changing the rest |
| GeneratesPrimaryKeyNanoId.ParseColumnsInOrder | src/GeneratesPrimaryKeyNanoId.php:87-120 | the corrected output keeps the recognised entries in declaration order |
| GeneratesPrimaryKeyNanoId.ParseMatchesTransform | src/GeneratesPrimaryKeyNanoId.php:87-120 | where sizes are falsy or ints and string-key overrides name strings, the corrected `parseColumns` equals `transformNanoIdColumns` |
| GeneratesPrimaryKeyNanoId.AsWrittenMatchesTransform | src/GeneratesPrimaryKeyNanoId.php:87-120 | under the same conditions and with no unrecognised entry, `parseColumns` as written equals `transformNanoIdColumns` |
| GeneratesPrimaryKeyNanoId.LaxParseExamples | src/GeneratesPrimaryKeyNanoId.php:100-105 | a size of "10" passes the lax parser but falls back to the default in the strict one |
| GeneratesPrimaryKeyNanoId.LaxStringKeyExample | src/GeneratesPrimaryKeyNanoId.php:109-114 | an int `'key'` under a string key is taken as is by the lax parser and ignored by the strict one; a null value is a TypeError |
| GeneratesPrimaryKeyNanoId.DefaultDeclarationParses | src/GeneratesPrimaryKeyNanoId.php:71-84 | the default declaration `['id']` parses to the default column `id`, as written and corrected |
| GeneratesPrimaryKeyNanoId.PrimaryKeyNanoIdHook | src/GeneratesPrimaryKeyNanoId.php:36-51 | given the parse result: a throwing parse leaves the model untouched; the model is created iff the parse succeeds with usable names, and `nanoIdColumn()` then holds a default NanoID, set before or not |
| GeneratesPrimaryKeyNanoId.BootGeneratesPrimaryKeyNanoId | src/GeneratesPrimaryKeyNanoId.php:36-51 | the in-place hook leaves the state of `PrimaryKeyNanoIdHook` on `parseColumns` as written; keys become string and non-incrementing only when created |
| GeneratesPrimaryKeyNanoId.HookNullEntry | src/GeneratesPrimaryKeyNanoId.php:38 | for `[42]` the hook as written throws and changes nothing, while the corrected parse would create the model with only the primary-key section applied |
| GeneratesPrimaryKeyNanoId.HookAgreesWhenNothingDropped | src/GeneratesPrimaryKeyNanoId.php:38-51 | when no entry maps to null, the hook gives the same result with either parser |
| GeneratesPrimaryKeyNanoId.DefaultModelCreation | src/GeneratesPrimaryKeyNanoId.php:38-49 | for `['id']` with key `id` the model is created; when the next default NanoID is truthy (not `"0"` or `""`), it replaces the fill loop's id and also serves as the key, with nothing else changed |
| GeneratesPrimaryKeyNanoId.PrimaryKeyNanoIdHookFrame | src/GeneratesPrimaryKeyNanoId.php:38-43 | with `parseColumns` as written, other set attributes and attributes outside the declaration are unchanged |
| GeneratesPrimaryKeyNanoId.PrimaryKeyNanoIdHookFillsColumns | src/GeneratesPrimaryKeyNanoId.php:38-43 | other unset declared columns get a NanoID with the first declaring entry's size and alphabets |
| GeneratesPrimaryKeyNanoId.RouteKeyName | src/GeneratesPrimaryKeyNanoId.php:163-166 | the route key is `nanoIdColumn()` |
| GeneratesPrimaryKeyNanoId.RouteKeyBindsBack | src/GeneratesPrimaryKeyNanoId.php:132-137 | with the default declaration, binding on any field looks the model up by its route key |

## Left out

- `Snortlin\NanoId\NanoId::nanoId`, `SIZE_DEFAULT` and `ALPHABET_DEFAULT` are kept abstract. The generator belongs to another library. Nothing is claimed about the length or characters of its output.
- The generator is assumed total: it accepts every size and alphabet it is handed (a negative size, or a string, float, bool or array size or alphabet passed on by `parseColumns`) and never throws. The created-iff results of GeneratesNanoId.NanoIdHook, GeneratesNanoIdAsPrimaryKey.CreatingHooks and GeneratesPrimaryKeyNanoId.PrimaryKeyNanoIdHook hold only under this assumption.
- Eloquent plumbing is left out: listener registration, `whereIn`, `qualifyColumn`, `Arr::wrap`, `resolveRouteBinding`, `firstOrFail` and magic `__set` mutators. Attribute writes are direct map updates. Trait boot order is the `keyFirst` parameter of `GeneratesNanoIdAsPrimaryKey.Creating`.
- PHP warnings are not modelled. A missing array key reads as null.
- Columns.WhereNanoIdColumn: compares with structural equality, not PHP's loose `==` inside `in_array`, so `'1'` and `1` are not the same column here.
- Columns.ColumnName: only a string or an int `'key'` names an attribute; every other value aborts the hook with `IllegalOffset`. PHP would coerce null to `""`, and bools and floats to ints, and throw only for arrays and objects. Declarations with such names are not meaningful.
- The `(string)` cast on the key-name NanoID is the identity, because the generator returns strings.
- src/NanoIdAsPrimaryKey.php and src/BindsOnNanoId.php are not part of this model. They hold constant getters and the same `getRouteKeyName` as `GeneratesPrimaryKeyNanoId.RouteKeyName`.
- A hook that throws leaves any attributes written before the throw in place. The model does this too. Whether the record is then rolled back is up to the framework.

## Findings

| source | as written | input that shows it | evidently intended | confidence | as-written member | corrected member |
|---|---|---|---|---|---|---|
| src/GeneratesPrimaryKeyNanoId.php:90-107 | the arrow function is declared `: array` but returns `null` for an unrecognised numeric-key entry, which raises a TypeError | `nanoIdColumns()` returning `[42]` | return null and let `array_filter` drop the entry, as `transformNanoIdColumns` does | high, not executed | GeneratesPrimaryKeyNanoId.AsWrittenFailsOnUnrecognised | GeneratesPrimaryKeyNanoId.ParseColumnsDropsUnrecognised |
| src/GeneratesNanoId.php:53-58 | the lookup compares the request with the raw declaration values and falls back to `nanoIdColumns()[0]` | `nanoIdColumns()` returning `['nanoid' => ['size' => 10]]`, with or without a requested field | choose among the resolved column names | medium, not executed | GeneratesNanoId.LookupIgnoresResolvedNames | Columns.WhereResolvedColumn |
