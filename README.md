# Snippet library: linter, placeholder engine and catalog, in Dafny

This project models the core of a code-snippet library for a low-code host.
A JSON catalog of snippets feeds two consumers:

- The command-line linter `validate-library.js` (module `ValidateLibrary`, module `LibraryStats`). It checks every snippet record, looks for repeated ids across the library, tallies the errors and warnings, and picks the exit status. It also counts snippets per category, with and without placeholders, and the total length of the code.
- The runtime modules exercised by `tests/PlaceholderEngine.test.js` (module `PlaceholderEngine`) and `tests/SnippetLibrary.test.js` (module `SnippetLibrary`):
  - the placeholder engine extracts, counts, validates and substitutes `{{NAME}}` tokens in snippet code;
  - the catalog answers queries by id, category, search term and popularity.

Shared pieces:

- `TokenGrammar` is the scanner of the regular expression `/{{(\w+)}}/g`. Both the linter and the engine use it.
- `Text` holds substring search (`includes`) and ASCII lower-casing.
- `Wrappers` holds `Option` and `Result`.

The linter is imperative in JavaScript: it pushes onto arrays inside `forEach` loops and bumps counters. It is modelled by methods with loops:

- `CheckRequiredFields` and `CrossCheck`, the loops of `validateSnippet`;
- `FindDuplicates` and `CheckAll`, the loops of `validateLibrary`;
- `GenerateStats`, the loop of `generateStats`.

The bodies of those loops are methods of their own (`ValidateSnippet`, `CheckEntry`, `CountEntry`, `RecordEntry`, `CountRecord`). `CheckId` and `CheckCode` are not loop bodies: they are the straight-line blocks of `validateSnippet` that check the id (validate-library.js:90-100) and the code (validate-library.js:118-143). `ValidateLibrary` puts the pieces together.

Each method is proved equal to a specification function: `Errors`, `Warnings`, `Duplicates`, `LibraryReport` or `StatsOf`. The lemmas then state what the linter promises about those functions.

The engine and the catalog are pure, so they are functions with lemmas. Their implementation files are not part of this model, so they are modelled from the behaviour the two test files assert. The token grammar they share with the linter is made precise as a left-to-right scan for `{{`, a maximal run of word characters, and `}}`.

Raw JSON records are modelled with JavaScript truthiness made explicit:

- A string field is `None` when it is missing or falsy, and `Some("")` when it is an explicit empty string. The required-field check accepts the empty string; every other check treats it as absent.
- `placeholders` is `Absent`, an `Array` of names or a `Scalar` string.
- The JSON key `label` is the field `labelText`, because `label` is a Dafny keyword.

## Model

| member | source | states |
|---|---|---|
| ValidateLibrary.CheckRequiredFields | validate-library.js:82-87 | The loop over the six required fields yields one missing-field error per absent field, in the order the fields are listed |
| ValidateLibrary.RequiredOnce | validate-library.js:82 | Each of the six fields is listed exactly once among the required fields |
| ValidateLibrary.MissingFieldErrorsCount | validate-library.js:83-87 | A field yields as many missing-field errors as it is listed when it is absent, and none when present |
| ValidateLibrary.RequiredFieldReported | validate-library.js:82-87 | In the full error list, each required field has exactly one missing-field error if it is absent and none otherwise |
| ValidateLibrary.EmptyStringIsPresent | validate-library.js:84 | An explicit empty string passes the presence check (`!x && x !== ''`) |
| ValidateLibrary.MissingFieldErrorsAgree | validate-library.js:83-87 | The missing-field errors depend only on which fields are present |
| ValidateLibrary.MissingFieldErrorsShape | validate-library.js:83-87 | The required-field loop raises only missing-field errors |
| ValidateLibrary.IdErrorIff | validate-library.js:90-93 | A truthy id is reported invalid exactly when it breaks `^[a-z0-9-]+$`; a falsy id is never reported invalid |
| ValidateLibrary.IdLengthWarned | validate-library.js:94-99 | A truthy id is warned short exactly when under 3 characters and long exactly when over 50 |
| ValidateLibrary.IdLengthNeverErrs | validate-library.js:90-100 | Two records differing only in their well-formed ids, whatever their lengths, get the same errors |
| ValidateLibrary.WarningsAfterIdShape | validate-library.js:107-148 | The checks after the id block never raise an id-length warning |
| ValidateLibrary.OtherWarningsFrom | validate-library.js:107-148 | A warning that is neither about the id nor about an undeclared token comes from the label, description, code-length or example checks |
| ValidateLibrary.TextLengthWarned | validate-library.js:107-115 | A short-label warning for `l` appears exactly when the label is `l`, non-empty and under 3 characters; a short-description warning exactly when the description is non-empty and under 10 |
| ValidateLibrary.CodeAndExampleLengthWarned | validate-library.js:118-148 | The short-code warning appears exactly when the code is truthy and under 10 characters; the example warning exactly when the example is missing or under 10 characters |
| ValidateLibrary.CategoryChecked | validate-library.js:103-105 | A truthy category outside the five valid ones gives exactly one invalid-category error; any other record gives none |
| ValidateLibrary.CrossCheck | validate-library.js:124-141 | The two loops give one not-found error per declared name whose token is absent, in declaration order, and one warning per scanned token occurrence whose name is undeclared |
| ValidateLibrary.NotFoundErrorsShape | validate-library.js:125-130 | The declared-name loop raises only not-found errors |
| ValidateLibrary.NotFoundErrorsAppend | validate-library.js:125-130 | Not-found errors follow declaration order: the check distributes over a split of the declared list |
| ValidateLibrary.NotFoundErrorsCount | validate-library.js:125-130 | A name gets not-found errors once per declaration when its token is absent, and none when present |
| ValidateLibrary.NotFoundErrorsAgree | validate-library.js:125-130 | Two codes containing the same declared tokens give the same not-found errors |
| ValidateLibrary.NotFoundEmptyIff | validate-library.js:125-130 | There is no not-found error exactly when every declared token occurs in the code |
| ValidateLibrary.UndeclaredWarningsShape | validate-library.js:133-141 | The occurrence loop raises only undeclared-placeholder warnings |
| ValidateLibrary.UndeclaredWarningsCount | validate-library.js:133-141 | An undeclared name is warned once per occurrence; a declared name never is |
| ValidateLibrary.UndeclaredEmptyIff | validate-library.js:133-141 | There is no undeclared warning exactly when every scanned name is declared |
| ValidateLibrary.CrossCheckAgreement | validate-library.js:124-141 | For declared names of the token grammar, the cross-check is silent exactly when the declared names and the names found in the code are the same set |
| ValidateLibrary.UndeclaredTokenAddsNoError | validate-library.js:133-141 | Putting an undeclared token in front of the code never changes the errors; undeclared tokens only warn |
| ValidateLibrary.CheckCode | validate-library.js:118-143 | A truthy code gets a short-code warning under 10 characters, then the cross-check when the placeholders are an array |
| ValidateLibrary.PlaceholderErrorsAreNotFound | validate-library.js:118-143 | The code block raises only not-found errors |
| ValidateLibrary.CrossCheckSkipped | validate-library.js:118-124 | With a falsy code or non-array placeholders there are no not-found errors and no undeclared warnings |
| ValidateLibrary.CheckId | validate-library.js:90-100 | A non-slug id is one error; an id shorter than 3 or longer than 50 characters only warns, and an absent id is not checked |
| ValidateLibrary.ValidateSnippet | validate-library.js:77-151 | `validateSnippet` returns exactly the specified errors and warnings, in the order of the checks |
| ValidateLibrary.TruthyIds | validate-library.js:190-191 | The ids taken into account are at most one per record |
| ValidateLibrary.FindDuplicates | validate-library.js:187-197 | The loop with the set of seen ids returns each truthy id already seen, once per repeat, in input order |
| ValidateLibrary.DuplicatesCount | validate-library.js:190-197 | An id occurring k >= 1 times among the truthy ids is reported k - 1 times |
| ValidateLibrary.DuplicatesEmptyIff | validate-library.js:190-204 | No duplicate is reported exactly when the truthy ids are pairwise distinct |
| ValidateLibrary.Decimal | validate-library.js:213 | `${index}` is written in canonical decimal (digits only, no leading zero) and the digits denote the index |
| ValidateLibrary.DecimalInjective | validate-library.js:213 | Different indices are written differently |
| ValidateLibrary.DisplayId | validate-library.js:213 | An entry is labelled by its truthy id, or else by `#` followed by the decimal digits of its index, which can never be mistaken for a valid id |
| ValidateLibrary.DisplayIdDistinct | validate-library.js:213 | Two records without an id at different indices get different labels |
| ValidateLibrary.Details | validate-library.js:211-219 | There is one `details` entry per record |
| ValidateLibrary.CheckEntry | validate-library.js:212-219 | The entry pushed for a record holds its display id and its validation results |
| ValidateLibrary.CountEntry | validate-library.js:221-243 | The counter updates of one pass add that entry's contribution to the five counters |
| ValidateLibrary.TallyAppend | validate-library.js:221-243 | Appending an entry moves the counters by that entry alone |
| ValidateLibrary.RecordEntry | validate-library.js:211-244 | One pass keeps `details` and the counters equal to those of the records seen so far |
| ValidateLibrary.CheckAll | validate-library.js:211-244 | The loop over the records leaves `details` with one entry per record, in input order, and the counters equal to the tallies of those entries |
| ValidateLibrary.ValidateLibrary | validate-library.js:154-246 | A library without a snippets array fails with status 1. Otherwise the report is the specified one: a missing version counts 1 error, each duplicate 1 error, each snippet its own errors |
| ValidateLibrary.DisplaySummary | validate-library.js:314-320 | The exit status is 0 or 1, and 0 exactly when there is no error |
| ValidateLibrary.SumErrorsZeroIff | validate-library.js:221-223 | The per-snippet errors sum to zero exactly when every entry is error-free |
| ValidateLibrary.TallyBounds | validate-library.js:221-243 | Valid snippets and snippets with errors (or with warnings) never exceed the total; snippets with errors never exceed the errors, and are zero exactly when the errors are |
| ValidateLibrary.DetailsErrorFree | validate-library.js:215-219 | The entries carry no error exactly when no record has one |
| ValidateLibrary.ExitStatusZeroIff | validate-library.js:170-320 | The linter exits with 0 exactly when the version is present, no id repeats, and no snippet has an error |
| LibraryStats.Keys | validate-library.js:286 | The keys of `byCategory` are read off the association list in insertion order |
| LibraryStats.Lookup | validate-library.js:265 | A category with a positive counter is a key |
| LibraryStats.Bump | validate-library.js:264-265 | Incrementing adds a key only when the category is new |
| LibraryStats.BumpKeys | validate-library.js:265 | An existing key keeps its place, and a new key is appended at the end |
| LibraryStats.BumpLookup | validate-library.js:265 | Incrementing adds one to that category's counter and leaves every other counter alone |
| LibraryStats.BumpNoDuplicates | validate-library.js:265 | Incrementing keeps the keys distinct |
| LibraryStats.BumpTotal | validate-library.js:265 | Incrementing adds exactly one to the sum of the counters |
| LibraryStats.BumpPositive | validate-library.js:265 | Incrementing keeps every counter positive |
| LibraryStats.Categorized | validate-library.js:263-264 | The non-empty categories are at most one per record |
| LibraryStats.Declaring | validate-library.js:268 | The records that declare placeholders are exactly those with a truthy placeholders value of positive length |
| LibraryStats.CountRecord | validate-library.js:263-276 | One pass bumps the record's category when it is non-empty, counts it with or without placeholders, and adds the length of present code |
| LibraryStats.GenerateStats | validate-library.js:249-277 | The counting loop of `generateStats` computes the specified statistics |
| LibraryStats.PlaceholderSplit | validate-library.js:268-272 | Each record is counted once, either with or without placeholders; the with-count is the number of records that declare placeholders |
| LibraryStats.ByCategoryKeys | validate-library.js:263-266 | The keys of `byCategory` are distinct and are exactly the non-empty categories, each with a positive counter |
| LibraryStats.ByCategoryLookup | validate-library.js:263-266 | Each category's counter is the number of records in that category |
| LibraryStats.ByCategoryTotal | validate-library.js:263-266 | The `byCategory` counters add up to the number of records with a non-empty category |
| LibraryStats.TotalCodeLength | validate-library.js:274-276 | `totalCodeLength` is the length of all present code fields concatenated |
| TokenGrammar.WordRun | validate-library.js:133 | `\w+` takes the longest run of word characters |
| TokenGrammar.TokenAt | validate-library.js:133 | A match at the front has a name of word characters closed by `}}` |
| TokenGrammar.TokenAtFinds | validate-library.js:133 | Text that begins with the token of a name is matched as exactly that token |
| TokenGrammar.Occurrences | validate-library.js:133 | Every scanned name is a word-character name, and each match uses at least five characters |
| TokenGrammar.UnmatchedPrefix | validate-library.js:133 | Text at none of whose positions a match starts contributes no match, whatever follows it, stray braces included |
| TokenGrammar.PlainPrefix | validate-library.js:133 | Text without an opening brace contributes no match |
| TokenGrammar.TokenPrefix | validate-library.js:133 | A token at the front is matched, and scanning resumes right after it |
| TokenGrammar.NoOverlap | validate-library.js:133 | Matches never overlap |
| Text.Contains | validate-library.js:127 | No contract of its own: `includes`, the query occurs at some index of the text. ContainsTokenIff relates it to the token scan |
| TokenGrammar.FoundIsContained | validate-library.js:126-137 | A scanned name's token occurs literally in the text |
| TokenGrammar.ContainedIsFound | validate-library.js:126-137 | Every literal occurrence of a name's token is found by the scan; no match hides it |
| TokenGrammar.ContainsTokenIff | validate-library.js:126-137 | `code.includes('{{p}}')` holds exactly when `p` is among the scanned names |
| PlaceholderEngine.Distinct | tests/PlaceholderEngine.test.js:17-22 | The names are kept without repeats: the same set as the input, with no longer length |
| PlaceholderEngine.FirstIndex | tests/PlaceholderEngine.test.js:17-22 | The first position of a name holds it, and nothing earlier does |
| PlaceholderEngine.Extract | tests/PlaceholderEngine.test.js:17-22 | `extract` returns each token name of the code exactly once, and only names of the grammar |
| PlaceholderEngine.ExtractFirstSeenOrder | tests/PlaceholderEngine.test.js:17-22 | Extracted names keep the order of their first appearance |
| PlaceholderEngine.DistinctLength | tests/PlaceholderEngine.test.js:17-22 | Extraction drops nothing exactly when no name repeats |
| PlaceholderEngine.Count | tests/PlaceholderEngine.test.js:49-51 | Every counted occurrence takes at least five characters of the code |
| PlaceholderEngine.CountVersusExtract | tests/PlaceholderEngine.test.js:49-51 | `count` is at least the size of `extract`, with equality exactly when no token repeats |
| PlaceholderEngine.HasPlaceholders | tests/PlaceholderEngine.test.js:57-60 | `hasPlaceholders` holds exactly when the count is positive |
| PlaceholderEngine.HasPlaceholdersIff | tests/PlaceholderEngine.test.js:57-60 | `hasPlaceholders` holds exactly when a recognised token starts somewhere in the code |
| PlaceholderEngine.Missing | tests/PlaceholderEngine.test.js:37-44 | `missing` is no longer than `required` |
| PlaceholderEngine.MissingMembers | tests/PlaceholderEngine.test.js:37-44 | `missing` holds exactly the required names that are not keys of `provided` |
| PlaceholderEngine.MissingKeepsOrder | tests/PlaceholderEngine.test.js:37-44 | `missing` keeps the order of `required` |
| PlaceholderEngine.Validate | tests/PlaceholderEngine.test.js:27-44 | `valid` holds exactly when `missing` is empty, exactly when every required name is provided |
| PlaceholderEngine.CreateEmptyValues | tests/PlaceholderEngine.test.js:66-70 | Every token name of the code, and nothing else, is mapped to the empty string |
| PlaceholderEngine.EmptyValuesValidate | tests/PlaceholderEngine.test.js:66-70 | A form seeded by `createEmptyValues` validates against the extracted names |
| PlaceholderEngine.Replace | tests/PlaceholderEngine.test.js:9-11 | No contract of its own: one left-to-right pass that swaps each mapped token for its value. ReplaceUnmatchedPrefix, ReplaceTokenPrefix, ReplaceAgree, ReplaceUnmapped and ReplaceNothing state what it does |
| PlaceholderEngine.ReplaceUnmapped | tests/PlaceholderEngine.test.js:9-11 | With no token mapped, replacement returns the code unchanged |
| PlaceholderEngine.ReplaceNothing | tests/PlaceholderEngine.test.js:9-11 | With no values at all, replacement returns the code unchanged |
| PlaceholderEngine.ReplaceAgree | tests/PlaceholderEngine.test.js:9-11 | Replacement reads the values only at the names that occur in the code |
| PlaceholderEngine.ReplaceUnmatchedPrefix | tests/PlaceholderEngine.test.js:9-11 | Text around the tokens is copied through unchanged: a prefix at none of whose positions a token starts comes out as it went in, stray braces included, and replacement goes on after it |
| PlaceholderEngine.ReplacePlainPrefix | tests/PlaceholderEngine.test.js:9-11 | Text without an opening brace is copied through unchanged |
| PlaceholderEngine.ReplaceTokenPrefix | tests/PlaceholderEngine.test.js:9-11 | A token becomes its value when mapped and stays verbatim otherwise |
| PlaceholderEngine.ReplaceSingleToken | tests/PlaceholderEngine.test.js:9-11 | A mapped token becomes its value verbatim; replacement does not recurse into values |
| PlaceholderEngine.ReplaceWithDefaults | tests/PlaceholderEngine.test.js:75-79 | When the caller's values cover every token, the result is replacement with those values alone; when they cover none, it is replacement with the defaults alone |
| PlaceholderEngine.LayeredReplace | tests/PlaceholderEngine.test.js:75-79 | Replacing with the values laid over the defaults equals replacing with the values alone when they cover every token, and with the defaults alone when they cover none |
| PlaceholderEngine.ReplaceWithDefaultsTokenPrefix | tests/PlaceholderEngine.test.js:75-79 | Token by token, mixed cases included: a token takes the caller's value when there is one, else the default, else it stays verbatim, and the rest is treated the same way |
| PlaceholderExamples.SimpleReplaceExample | tests/PlaceholderEngine.test.js:9-11 | `'const x = "{{VALUE}}"'` with VALUE→'42' gives `'const x = "42"'` |
| PlaceholderExamples.ExtractExample | tests/PlaceholderEngine.test.js:17-22 | `'{{NAME}} and {{AGE}} and {{NAME}}'` extracts NAME and AGE, two names |
| PlaceholderExamples.DistinctExample | tests/PlaceholderEngine.test.js:17-22 | Removing repeats from NAME, AGE, NAME gives NAME, AGE |
| PlaceholderExamples.ScanExtractExample | tests/PlaceholderEngine.test.js:17 | The scan of the example finds NAME, AGE, NAME |
| PlaceholderExamples.ValidateExamples | tests/PlaceholderEngine.test.js:27-44 | All names provided gives valid with nothing missing; only NAME provided gives invalid with AGE and EMAIL missing |
| PlaceholderExamples.CountExample | tests/PlaceholderEngine.test.js:49-51 | `'{{A}} {{B}} {{A}}'` counts 3 |
| PlaceholderExamples.HasPlaceholdersExamples | tests/PlaceholderEngine.test.js:57-60 | `'{{VALUE}}'` has placeholders; `'no placeholders'` has none |
| PlaceholderExamples.ScanCreateEmptyValuesExample | tests/PlaceholderEngine.test.js:66 | The scan of `'{{NAME}} {{AGE}}'` finds NAME, AGE |
| PlaceholderExamples.CreateEmptyValuesExample | tests/PlaceholderEngine.test.js:66-70 | NAME and AGE are both mapped to the empty string |
| PlaceholderExamples.ReplaceWithDefaultsExample | tests/PlaceholderEngine.test.js:75-79 | With NAME→John over the defaults AGE→25 and NAME→Default, the example gives 'John is 25 years old' |
| PlaceholderExamples.FullExpansionCounterexample | tests/PlaceholderEngine.test.js:9-11 | Replacement is a single pass: `{{{{A}}}}` with A→B gives `{{B}}`, which still holds a token |
| PlaceholderExamples.StrayBraceExample | tests/PlaceholderEngine.test.js:9-11 | A stray brace before a token is copied and the token still replaced: `{{{A}}` with A→x gives `{x` |
| PlaceholderExamples.ReplaceTwiceCounterexample | tests/PlaceholderEngine.test.js:9-11 | Replacement is not idempotent: with A→B and B→C, one pass over `{{{{A}}}}` gives `{{B}}` and a second pass gives `C` |
| SnippetLibrary.GetAll | tests/SnippetLibrary.test.js:8-11 | No contract of its own: the whole catalog, in catalog order. SearchEmptyMatchesAll and GetAllIsUnionOfCategories relate it to the other queries |
| SnippetLibrary.GetByCategory | tests/SnippetLibrary.test.js:17-21 | The result holds exactly the snippets of that category |
| SnippetLibrary.GetByCategoryAppend | tests/SnippetLibrary.test.js:17-21 | The category view keeps catalog order: filtering a concatenation is concatenating the filtered parts |
| SnippetLibrary.GetAllIsUnionOfCategories | tests/SnippetLibrary.test.js:8-21 | Every snippet is returned by the query for its own category |
| SnippetLibrary.CountCategory | tests/SnippetLibrary.test.js:17-21 | A category holds no more snippets than the catalog |
| SnippetLibrary.GetByCategorySize | tests/SnippetLibrary.test.js:17-21 | A category view has as many snippets as the catalog has in that category |
| SnippetLibrary.GetById | tests/SnippetLibrary.test.js:27-37 | A found snippet is in the catalog with the requested id; null exactly when no snippet has it |
| SnippetLibrary.GetByIdRoundTrip | tests/SnippetLibrary.test.js:27-29 | With unique ids, looking up a snippet's id returns that snippet |
| SnippetLibrary.GetByIdIsFirst | tests/SnippetLibrary.test.js:27-29 | The snippet found is the first one in the catalog with that id |
| SnippetLibrary.Search | tests/SnippetLibrary.test.js:43-45 | The result holds exactly the snippets whose label, description or id contains the term, ignoring ASCII case |
| SnippetLibrary.SearchIgnoresTermCase | tests/SnippetLibrary.test.js:43-45 | Lower-casing the term does not change the result |
| SnippetLibrary.SearchEmptyMatchesAll | tests/SnippetLibrary.test.js:50-52 | The empty term returns the whole catalog, in the same order |
| SnippetLibrary.GetCategoryById | tests/SnippetLibrary.test.js:66-68 | A found category has the requested id; null exactly when no category has it |
| SnippetLibrary.GetCategoryByIdRoundTrip | tests/SnippetLibrary.test.js:66-68 | With unique category ids, looking up a category's id returns that category |
| SnippetLibrary.GetCategories | tests/SnippetLibrary.test.js:57-60 | No contract of its own: the category list, in catalog order |
| SnippetLibrary.UsedCategories | tests/SnippetLibrary.test.js:74-76 | The used categories are exactly those some snippet belongs to |
| SnippetLibrary.GetStats | tests/SnippetLibrary.test.js:74-76 | The keys are exactly the populated categories, each mapped to its positive number of snippets |
| SnippetLibrary.SumCountsStep | tests/SnippetLibrary.test.js:74-76 | Removing the first snippet lowers only its own category's count |
| SnippetLibrary.CategoryCountsSumToTotal | tests/SnippetLibrary.test.js:74-76 | Over a list naming every category once, the category counts add up to the catalog size |
| SnippetLibrary.GetPopular | tests/SnippetLibrary.test.js:82-84 | At most `limit` snippets, exactly `min(limit, catalog size)`, all from the catalog |
| SnippetLibrary.GetPopularMonotone | tests/SnippetLibrary.test.js:82-84 | The list is a prefix of the catalog, and a larger limit only adds snippets |

## Left out

- Console output, colours, headers and every message text are left out. Errors and warnings are datatype values carrying the same data the messages interpolate.
- `loadLibrary`, `exportReport` and `main` (validate-library.js:65-74, 324-370) are left out: file reading, JSON parsing, a timestamp, writing the report and `process.exit`. The exit at validate-library.js:179 is the `Failure(1)` result of `ValidateLibrary`.
- `avgCodeLength` (validate-library.js:279) is left out: floating-point division and `Math.round`, giving NaN on an empty library.
- `avgDescriptionLength` (validate-library.js:258) is left out: it is set to 0 and never updated, so it carries no computed information.
- String lengths are counted in characters of `seq<char>`. JavaScript counts UTF-16 code units, which differ for characters outside the Basic Multilingual Plane.
- String fields that hold a truthy non-string value (a number, an object) are not modelled, and neither are non-string elements of a `placeholders` array. `placeholders` values other than a string or an array are `Absent`, which is right for falsy values only.
- ValidateLibrary.ValidateLibrary: every element of `snippets` is assumed to be an object. A `null` element makes `snippet.id` at validate-library.js:191 throw a TypeError, which `main` catches (validate-library.js:365-368) and answers with exit status 1 and no report. The type `seq<SnippetRecord>` cannot express such an element.
- The ids are assumed to be strings, so the `snippet.id.length` of validate-library.js:94 is always defined.
- SnippetLibrary.Search: case folding covers ASCII letters only; `toLowerCase` folds all of Unicode.
- SnippetLibrary.GetPopular: the popularity ranking is not part of this model. The result is the catalog's first `limit` snippets, and only the length bound and membership are stated.
- SnippetLibrary.GetStats: categories without snippets are left out of the result; zero counts are never listed.
- LibraryStats.GenerateStats: `byCategory` is a plain object literal (validate-library.js:254), and the model is an association list in insertion order. Three differences follow. JavaScript lists integer-like keys before other keys, and the model keeps plain insertion order. A category named after a member of `Object.prototype`, such as `toString` or `constructor`, reads that inherited member in `byCategory[c] || 0` (validate-library.js:265): JavaScript then stores a string such as `"function toString() { [native code] }1"`, where the model stores the count 1. A category named `__proto__` goes through the prototype setter, which ignores the number: JavaScript adds no key, and the model counts it like any other category.
- The implementations of the placeholder engine and of the catalog are not part of this model. `PlaceholderEngine` and `SnippetLibrary` are built from the behaviour their test files assert and from the token grammar of validate-library.js:133.
- Data-dependent assertions of tests/SnippetLibrary.test.js are left out: a non-empty catalog, `search('notification')` finding results, and the label of `notify-success`. They depend on the catalog's contents, not on the operations.
- PlaceholderEngine.Replace: replacement is one left-to-right pass. Two laws sometimes stated for the engine therefore fail: replacing every extracted name does not always leave the code free of tokens, and replacing twice is not always the same as replacing once. `FullExpansionCounterexample` shows the first: `{{{{A}}}}` with A→B gives `{{B}}`, which still holds a token. `ReplaceTwiceCounterexample` shows the second: with A→B, B→C one pass over `{{{{A}}}}` gives `{{B}}`, and a second pass gives `C`. The model follows the single-pass scan.
