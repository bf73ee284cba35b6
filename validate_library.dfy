/**
 * The snippet-library linter of validate-library.js: the checks applied to one
 * raw snippet record (`validateSnippet`), the library-wide pass that adds
 * duplicate-id detection and tallies the counters (`validateLibrary`), and the
 * exit status chosen by `displaySummary`.
 *
 * Each method builds its result step by step, as the JavaScript does, and is
 * proved equal to a specification function; the lemmas below state what the
 * linter promises about those functions.
 */
module ValidateLibrary {
  import opened Wrappers
  import opened Text
  import opened TokenGrammar

  // ---------------------------------------------------------------------------
  // Raw records, as they come out of the parsed JSON file.

  /** The `placeholders` field: missing (or another falsy value), an array of
    * names, or a string. */
  datatype Placeholders = Absent | Array(names: seq<string>) | Scalar(text: string)

  /** A snippet record as read from the JSON file. A string field is `None`
    * when it is missing or holds a falsy non-string value, and `Some("")` when
    * it is an explicit empty string. */
  datatype SnippetRecord = SnippetRecord(
    id: Option<string>,
    category: Option<string>,
    labelText: Option<string>,
    description: Option<string>,
    code: Option<string>,
    placeholders: Placeholders,
    example: Option<string>)

  /** The parsed library file; `snippets` is `None` when it is missing or not an array. */
  datatype Library = Library(version: Option<string>, snippets: Option<seq<SnippetRecord>>)

  /** The fields `validateSnippet` requires, as named in the JSON file. */
  datatype Field = IdField | CategoryField | LabelField | DescriptionField | CodeField | PlaceholdersField

  datatype SnippetError =
    | MissingField(field: Field)
    | InvalidId(id: string)
    | InvalidCategory(category: string)
    | PlaceholderNotFound(name: string)

  datatype SnippetWarning =
    | ShortId(id: string)
    | LongId(id: string)
    | ShortLabel(labelText: string)
    | ShortDescription(description: string)
    | ShortCode
    | UndeclaredPlaceholder(name: string)
    | MissingExample

  const ValidCategories: seq<string> :=
    ["notifications", "crud-data", "dom-manipulation", "utilities", "complete-examples"]

  const RequiredFields: seq<Field> :=
    [IdField, CategoryField, LabelField, DescriptionField, CodeField, PlaceholdersField]

  /** JavaScript truthiness of an optional string field. */
  predicate Truthy(f: Option<string>) {
    f.Some? && f.value != ""
  }

  /** The check `!snippet[field] && snippet[field] !== ''`: the field is missing
    * or falsy, and not the empty string. */
  predicate FieldMissing(s: SnippetRecord, field: Field) {
    match field
    case IdField => s.id.None?
    case CategoryField => s.category.None?
    case LabelField => s.labelText.None?
    case DescriptionField => s.description.None?
    case CodeField => s.code.None?
    case PlaceholdersField => s.placeholders.Absent?
  }

  predicate IsSlugChar(c: char) {
    'a' <= c <= 'z' || '0' <= c <= '9' || c == '-'
  }

  /** The id grammar `^[a-z0-9-]+$`. */
  predicate IsSlug(id: string) {
    |id| > 0 && forall i :: 0 <= i < |id| ==> IsSlugChar(id[i])
  }

  // ---------------------------------------------------------------------------
  // Specification of validateSnippet.

  /** One `MissingField` error per missing field of `fields`, in order. */
  function MissingFieldErrors(s: SnippetRecord, fields: seq<Field>): seq<SnippetError> {
    if fields == [] then []
    else
      var last := fields[|fields| - 1];
      MissingFieldErrors(s, fields[..|fields| - 1]) + (if FieldMissing(s, last) then [MissingField(last)] else [])
  }

  function IdErrors(s: SnippetRecord): seq<SnippetError> {
    if Truthy(s.id) && !IsSlug(s.id.value) then [InvalidId(s.id.value)] else []
  }

  function CategoryErrors(s: SnippetRecord): seq<SnippetError> {
    if Truthy(s.category) && s.category.value !in ValidCategories then [InvalidCategory(s.category.value)] else []
  }

  /** One `PlaceholderNotFound` error per declared name whose token is not in `code`. */
  function NotFoundErrors(code: string, declared: seq<string>): seq<SnippetError> {
    if declared == [] then []
    else
      var p := declared[|declared| - 1];
      NotFoundErrors(code, declared[..|declared| - 1]) + (if Contains(code, Token(p)) then [] else [PlaceholderNotFound(p)])
  }

  /** The placeholder cross-check runs only on truthy code and an array of names. */
  predicate CrossChecked(s: SnippetRecord) {
    Truthy(s.code) && s.placeholders.Array?
  }

  function PlaceholderErrors(s: SnippetRecord): seq<SnippetError> {
    if CrossChecked(s) then NotFoundErrors(s.code.value, s.placeholders.names) else []
  }

  /** The errors `validateSnippet` reports, in the order it pushes them. */
  function Errors(s: SnippetRecord): seq<SnippetError> {
    MissingFieldErrors(s, RequiredFields) + IdErrors(s) + CategoryErrors(s) + PlaceholderErrors(s)
  }

  function IdWarnings(s: SnippetRecord): seq<SnippetWarning> {
    if Truthy(s.id) then
      (if |s.id.value| < 3 then [ShortId(s.id.value)] else [])
      + (if |s.id.value| > 50 then [LongId(s.id.value)] else [])
    else []
  }

  function TextWarnings(s: SnippetRecord): seq<SnippetWarning> {
    (if Truthy(s.labelText) && |s.labelText.value| < 3 then [ShortLabel(s.labelText.value)] else [])
    + (if Truthy(s.description) && |s.description.value| < 10 then [ShortDescription(s.description.value)] else [])
  }

  /** One `UndeclaredPlaceholder` warning per token occurrence whose name is not declared. */
  function UndeclaredWarnings(found: seq<string>, declared: seq<string>): seq<SnippetWarning> {
    if found == [] then []
    else
      var p := found[|found| - 1];
      UndeclaredWarnings(found[..|found| - 1], declared) + (if p in declared then [] else [UndeclaredPlaceholder(p)])
  }

  function CodeWarnings(s: SnippetRecord): seq<SnippetWarning> {
    if Truthy(s.code) then
      (if |s.code.value| < 10 then [ShortCode] else [])
      + (if s.placeholders.Array? then UndeclaredWarnings(Occurrences(s.code.value), s.placeholders.names) else [])
    else []
  }

  function ExampleWarnings(s: SnippetRecord): seq<SnippetWarning> {
    if s.example.None? || |s.example.value| < 10 then [MissingExample] else []
  }

  /** The warnings `validateSnippet` reports, in the order it pushes them. */
  function Warnings(s: SnippetRecord): seq<SnippetWarning> {
    IdWarnings(s) + TextWarnings(s) + CodeWarnings(s) + ExampleWarnings(s)
  }

  // ---------------------------------------------------------------------------
  // validateSnippet.

  /** The loop over the required fields: one error per missing field. */
  method CheckRequiredFields(s: SnippetRecord) returns (errors: seq<SnippetError>)
    ensures errors == MissingFieldErrors(s, RequiredFields)
  {
    errors := [];
    var i := 0;
    while i < |RequiredFields|
      invariant i <= |RequiredFields|
      invariant errors == MissingFieldErrors(s, RequiredFields[..i])
    {
      var field := RequiredFields[i];
      assert RequiredFields[..i + 1][..i] == RequiredFields[..i];
      if FieldMissing(s, field) {
        errors := errors + [MissingField(field)];
      }
      i := i + 1;
    }
    assert RequiredFields[..i] == RequiredFields;
  }

  /** The two loops of the placeholder cross-check: declared names whose token is
    * not in the code, then token occurrences whose name is not declared. */
  method CrossCheck(code: string, declared: seq<string>)
    returns (errors: seq<SnippetError>, warnings: seq<SnippetWarning>)
    ensures errors == NotFoundErrors(code, declared)
    ensures warnings == UndeclaredWarnings(Occurrences(code), declared)
  {
    errors := [];
    var j := 0;
    while j < |declared|
      invariant j <= |declared|
      invariant errors == NotFoundErrors(code, declared[..j])
    {
      var p := declared[j];
      assert declared[..j + 1][..j] == declared[..j];
      if !Contains(code, Token(p)) {
        errors := errors + [PlaceholderNotFound(p)];
      }
      j := j + 1;
    }
    assert declared[..j] == declared;

    var found := Occurrences(code);
    warnings := [];
    var k := 0;
    while k < |found|
      invariant k <= |found|
      invariant warnings == UndeclaredWarnings(found[..k], declared)
    {
      var p := found[k];
      assert found[..k + 1][..k] == found[..k];
      if p !in declared {
        warnings := warnings + [UndeclaredPlaceholder(p)];
      }
      k := k + 1;
    }
    assert found[..k] == found;
  }

  /** The checks on a truthy `code`: its length, then the placeholder cross-check
    * when the placeholders are an array. */
  method CheckCode(s: SnippetRecord) returns (errors: seq<SnippetError>, warnings: seq<SnippetWarning>)
    ensures errors == PlaceholderErrors(s)
    ensures warnings == CodeWarnings(s)
  {
    errors, warnings := [], [];
    if Truthy(s.code) {
      var code := s.code.value;
      if |code| < 10 {
        warnings := warnings + [ShortCode];
      }
      if s.placeholders.Array? {
        var missing, undeclared := CrossCheck(code, s.placeholders.names);
        errors := errors + missing;
        warnings := warnings + undeclared;
      }
    }
  }

  /** The id checks: the slug grammar is an error, the length limits only warn. */
  method CheckId(s: SnippetRecord) returns (errors: seq<SnippetError>, warnings: seq<SnippetWarning>)
    ensures errors == IdErrors(s)
    ensures warnings == IdWarnings(s)
  {
    errors := [];
    warnings := [];
    if Truthy(s.id) {
      var id := s.id.value;
      if !IsSlug(id) {
        errors := errors + [InvalidId(id)];
      }
      if |id| < 3 {
        warnings := warnings + [ShortId(id)];
      }
      if |id| > 50 {
        warnings := warnings + [LongId(id)];
      }
    }
  }

  /** `validateSnippet`: the errors and warnings of one snippet record. */
  method ValidateSnippet(s: SnippetRecord) returns (errors: seq<SnippetError>, warnings: seq<SnippetWarning>)
    ensures errors == Errors(s)
    ensures warnings == Warnings(s)
  {
    errors := CheckRequiredFields(s);
    var idErrors;
    idErrors, warnings := CheckId(s);
    errors := errors + idErrors;

    if Truthy(s.category) && s.category.value !in ValidCategories {
      errors := errors + [InvalidCategory(s.category.value)];
    }

    if Truthy(s.labelText) && |s.labelText.value| < 3 {
      warnings := warnings + [ShortLabel(s.labelText.value)];
    }

    if Truthy(s.description) && |s.description.value| < 10 {
      warnings := warnings + [ShortDescription(s.description.value)];
    }
    assert errors == MissingFieldErrors(s, RequiredFields) + IdErrors(s) + CategoryErrors(s);
    assert warnings == IdWarnings(s) + TextWarnings(s);

    var codeErrors, codeWarnings := CheckCode(s);
    errors := errors + codeErrors;
    warnings := warnings + codeWarnings;

    if s.example.None? || |s.example.value| < 10 {
      warnings := warnings + [MissingExample];
    }
  }

  // ---------------------------------------------------------------------------
  // Properties of one snippet's errors and warnings.

  /** Occurrences of `x` in `xs`. */
  function Tally<T(==)>(xs: seq<T>, x: T): nat {
    multiset(xs)[x]
  }

  lemma {:induction false} MissingFieldErrorsCount(s: SnippetRecord, fields: seq<Field>, f: Field)
    ensures Tally(MissingFieldErrors(s, fields), MissingField(f))
         == (if FieldMissing(s, f) then Tally(fields, f) else 0)
  {
    if fields != [] {
      var init := fields[..|fields| - 1];
      MissingFieldErrorsCount(s, init, f);
      assert fields == init + [fields[|fields| - 1]];
    }
  }

  /** Every field is listed exactly once among the required fields. */
  lemma RequiredOnce(f: Field)
    ensures Tally(RequiredFields, f) == 1
  {
    var r := RequiredFields;
    assert multiset(r) == multiset{IdField, CategoryField, LabelField, DescriptionField, CodeField, PlaceholdersField};
  }

  /** A required field yields exactly one "missing" error when it is absent or
    * falsy, and none otherwise; an explicit empty string counts as present. */
  lemma RequiredFieldReported(s: SnippetRecord, f: Field)
    ensures Tally(Errors(s), MissingField(f)) == (if FieldMissing(s, f) then 1 else 0)
  {
    MissingFieldErrorsCount(s, RequiredFields, f);
    RequiredOnce(f);
    PlaceholderErrorsAreNotFound(s);
    var m, i, k, p := MissingFieldErrors(s, RequiredFields), IdErrors(s), CategoryErrors(s), PlaceholderErrors(s);
    assert Errors(s) == m + i + k + p;
    assert MissingField(f) !in i && MissingField(f) !in k && MissingField(f) !in p;
  }

  lemma {:induction false} NotFoundErrorsShape(code: string, declared: seq<string>)
    ensures forall e :: e in NotFoundErrors(code, declared) ==> e.PlaceholderNotFound?
  {
    if declared != [] {
      NotFoundErrorsShape(code, declared[..|declared| - 1]);
    }
  }

  lemma PlaceholderErrorsAreNotFound(s: SnippetRecord)
    ensures forall e :: e in PlaceholderErrors(s) ==> e.PlaceholderNotFound?
  {
    if CrossChecked(s) {
      NotFoundErrorsShape(s.code.value, s.placeholders.names);
    }
  }

  /** An explicit empty string satisfies the presence check. */
  lemma EmptyStringIsPresent(s: SnippetRecord)
    requires s.id == Some("") && s.code == Some("")
    ensures MissingField(IdField) !in Errors(s) && MissingField(CodeField) !in Errors(s)
  {
    RequiredFieldReported(s, IdField);
    RequiredFieldReported(s, CodeField);
  }

  /** A truthy id breaking the slug grammar `^[a-z0-9-]+$` is an error; a
    * missing or empty id is never checked. */
  lemma IdErrorIff(s: SnippetRecord)
    ensures Truthy(s.id) ==> (InvalidId(s.id.value) in Errors(s) <==> !IsSlug(s.id.value))
    ensures !Truthy(s.id) ==> forall e :: e in Errors(s) ==> !e.InvalidId?
  {
    MissingFieldErrorsShape(s, RequiredFields);
    PlaceholderErrorsAreNotFound(s);
  }

  /** A short or long truthy id is warned about. */
  lemma IdLengthWarned(s: SnippetRecord)
    requires Truthy(s.id)
    ensures ShortId(s.id.value) in Warnings(s) <==> |s.id.value| < 3
    ensures LongId(s.id.value) in Warnings(s) <==> |s.id.value| > 50
  {
    WarningsAfterIdShape(s);
    assert Warnings(s) == IdWarnings(s) + (TextWarnings(s) + CodeWarnings(s) + ExampleWarnings(s));
  }

  /** A warning that is neither about the id nor about an undeclared token comes
    * from the text, code-length or example checks. */
  lemma OtherWarningsFrom(s: SnippetRecord, w: SnippetWarning)
    requires !w.ShortId? && !w.LongId? && !w.UndeclaredPlaceholder?
    ensures w in Warnings(s)
        <==> w in TextWarnings(s) || (w == ShortCode && Truthy(s.code) && |s.code.value| < 10) || w in ExampleWarnings(s)
  {
    if Truthy(s.code) && s.placeholders.Array? {
      UndeclaredWarningsShape(Occurrences(s.code.value), s.placeholders.names);
    }
    assert Warnings(s) == IdWarnings(s) + TextWarnings(s) + CodeWarnings(s) + ExampleWarnings(s);
  }

  /** The minimum lengths of the label and the description only warn: each
    * warning appears exactly when the text is present, non-empty and short. */
  lemma TextLengthWarned(s: SnippetRecord, l: string)
    ensures ShortLabel(l) in Warnings(s) <==> s.labelText == Some(l) && l != "" && |l| < 3
    ensures ShortDescription(l) in Warnings(s) <==> s.description == Some(l) && l != "" && |l| < 10
  {
    OtherWarningsFrom(s, ShortLabel(l));
    OtherWarningsFrom(s, ShortDescription(l));
  }

  /** A short code and a missing or short example only warn, exactly when the
    * check applies. */
  lemma CodeAndExampleLengthWarned(s: SnippetRecord)
    ensures ShortCode in Warnings(s) <==> Truthy(s.code) && |s.code.value| < 10
    ensures MissingExample in Warnings(s) <==> s.example.None? || |s.example.value| < 10
  {
    OtherWarningsFrom(s, ShortCode);
    OtherWarningsFrom(s, MissingExample);
  }

  /** The id's length never yields an error: two records that differ only in
    * their well-formed ids, whatever their lengths, have the same errors. */
  lemma IdLengthNeverErrs(s: SnippetRecord, a: string, b: string)
    requires IsSlug(a) && IsSlug(b)
    ensures Errors(s.(id := Some(a))) == Errors(s.(id := Some(b)))
  {
    MissingFieldErrorsAgree(s.(id := Some(a)), s.(id := Some(b)), RequiredFields);
  }

  lemma {:induction false} MissingFieldErrorsShape(s: SnippetRecord, fields: seq<Field>)
    ensures forall e :: e in MissingFieldErrors(s, fields) ==> e.MissingField?
  {
    if fields != [] {
      MissingFieldErrorsShape(s, fields[..|fields| - 1]);
    }
  }

  lemma {:induction false} MissingFieldErrorsAgree(s: SnippetRecord, t: SnippetRecord, fields: seq<Field>)
    requires forall f :: FieldMissing(s, f) <==> FieldMissing(t, f)
    ensures MissingFieldErrors(s, fields) == MissingFieldErrors(t, fields)
  {
    if fields != [] {
      MissingFieldErrorsAgree(s, t, fields[..|fields| - 1]);
    }
  }

  lemma WarningsAfterIdShape(s: SnippetRecord)
    ensures forall w :: w in TextWarnings(s) + CodeWarnings(s) + ExampleWarnings(s) ==> !w.ShortId? && !w.LongId?
  {
    if Truthy(s.code) && s.placeholders.Array? {
      UndeclaredWarningsShape(Occurrences(s.code.value), s.placeholders.names);
    }
  }

  lemma {:induction false} UndeclaredWarningsShape(found: seq<string>, declared: seq<string>)
    ensures forall w :: w in UndeclaredWarnings(found, declared) ==> w.UndeclaredPlaceholder?
  {
    if found != [] {
      UndeclaredWarningsShape(found[..|found| - 1], declared);
    }
  }

  /** A truthy category outside the fixed five yields exactly one error; a
    * missing or empty category yields none. */
  lemma CategoryChecked(s: SnippetRecord, c: string)
    ensures Tally(Errors(s), InvalidCategory(c))
         == (if s.category == Some(c) && c != "" && c !in ValidCategories then 1 else 0)
  {
    MissingFieldErrorsShape(s, RequiredFields);
    PlaceholderErrorsAreNotFound(s);
    var m, i, k, p := MissingFieldErrors(s, RequiredFields), IdErrors(s), CategoryErrors(s), PlaceholderErrors(s);
    assert Errors(s) == m + i + k + p;
    assert InvalidCategory(c) !in m && InvalidCategory(c) !in p;
    assert Tally(m, InvalidCategory(c)) == 0;
    assert Tally(p, InvalidCategory(c)) == 0;
  }

  /** Missing placeholders are reported in declaration order: the check
    * distributes over a split of the declared list. */
  lemma {:induction false} NotFoundErrorsAppend(code: string, a: seq<string>, b: seq<string>)
    ensures NotFoundErrors(code, a + b) == NotFoundErrors(code, a) + NotFoundErrors(code, b)
  {
    if b == [] {
      assert a + b == a;
    } else {
      var init := b[..|b| - 1];
      assert (a + b)[..|a + b| - 1] == a + init;
      NotFoundErrorsAppend(code, a, init);
    }
  }

  /** Each declared name whose token is absent from the code yields one error. */
  lemma {:induction false} NotFoundErrorsCount(code: string, declared: seq<string>, p: string)
    ensures Tally(NotFoundErrors(code, declared), PlaceholderNotFound(p))
         == (if Contains(code, Token(p)) then 0 else Tally(declared, p))
  {
    if declared != [] {
      var init := declared[..|declared| - 1];
      NotFoundErrorsCount(code, init, p);
      assert declared == init + [declared[|declared| - 1]];
    }
  }

  /** The cross-check is skipped when the code is empty or the placeholders are not an array. */
  lemma CrossCheckSkipped(s: SnippetRecord)
    requires !CrossChecked(s)
    ensures forall e :: e in Errors(s) ==> !e.PlaceholderNotFound?
    ensures forall w :: w in Warnings(s) ==> !w.UndeclaredPlaceholder?
  {
    MissingFieldErrorsShape(s, RequiredFields);
  }

  /** Each occurrence of an undeclared token yields one warning, so repeats repeat it. */
  lemma {:induction false} UndeclaredWarningsCount(found: seq<string>, declared: seq<string>, p: string)
    ensures Tally(UndeclaredWarnings(found, declared), UndeclaredPlaceholder(p))
         == (if p in declared then 0 else Tally(found, p))
  {
    if found != [] {
      var init := found[..|found| - 1];
      UndeclaredWarningsCount(init, declared, p);
      assert found == init + [found[|found| - 1]];
    }
  }

  /** Two codes that contain the same declared tokens give the same missing-placeholder errors. */
  lemma {:induction false} NotFoundErrorsAgree(c1: string, c2: string, declared: seq<string>)
    requires forall p :: p in declared ==> (Contains(c1, Token(p)) <==> Contains(c2, Token(p)))
    ensures NotFoundErrors(c1, declared) == NotFoundErrors(c2, declared)
  {
    if declared != [] {
      var init := declared[..|declared| - 1];
      assert forall p :: p in init ==> p in declared;
      NotFoundErrorsAgree(c1, c2, init);
    }
  }

  /** An undeclared token only ever warns: putting one more in front of the code
    * leaves the errors unchanged. */
  lemma UndeclaredTokenAddsNoError(s: SnippetRecord, p: string)
    requires CrossChecked(s) && IsName(p) && p !in s.placeholders.names
    requires forall q :: q in s.placeholders.names ==> IsName(q)
    ensures Errors(s.(code := Some(Token(p) + s.code.value))) == Errors(s)
  {
    var code := s.code.value;
    var t := s.(code := Some(Token(p) + code));
    assert Token(p) + code != "";
    MissingFieldErrorsAgree(s, t, RequiredFields);
    TokenPrefix(p, code);
    forall q | q in s.placeholders.names
      ensures Contains(Token(p) + code, Token(q)) <==> Contains(code, Token(q))
    {
      ContainsTokenIff(code, q);
      ContainsTokenIff(Token(p) + code, q);
    }
    NotFoundErrorsAgree(Token(p) + code, code, s.placeholders.names);
  }

  lemma {:induction false} NotFoundEmptyIff(code: string, declared: seq<string>)
    ensures NotFoundErrors(code, declared) == []
        <==> forall i :: 0 <= i < |declared| ==> Contains(code, Token(declared[i]))
  {
    if declared != [] {
      var init := declared[..|declared| - 1];
      NotFoundEmptyIff(code, init);
      assert forall i :: 0 <= i < |init| ==> init[i] == declared[i];
    }
  }

  lemma {:induction false} UndeclaredEmptyIff(found: seq<string>, declared: seq<string>)
    ensures UndeclaredWarnings(found, declared) == [] <==> forall i :: 0 <= i < |found| ==> found[i] in declared
  {
    if found != [] {
      var init := found[..|found| - 1];
      UndeclaredEmptyIff(init, declared);
      assert forall i :: 0 <= i < |init| ==> init[i] == found[i];
    }
  }

  /** With names of the token grammar, the declared placeholders and the tokens in
    * the code agree in both directions exactly when the check reports neither a
    * missing placeholder nor an undeclared one. */
  lemma CrossCheckAgreement(code: string, declared: seq<string>)
    requires forall p :: p in declared ==> IsName(p)
    ensures (NotFoundErrors(code, declared) == [] && UndeclaredWarnings(Occurrences(code), declared) == [])
        <==> (forall p :: p in declared <==> p in Occurrences(code))
  {
    NotFoundEmptyIff(code, declared);
    UndeclaredEmptyIff(Occurrences(code), declared);
    forall p | p in declared
      ensures Contains(code, Token(p)) <==> p in Occurrences(code)
    {
      ContainsTokenIff(code, p);
    }
  }

  // ---------------------------------------------------------------------------
  // Duplicate ids.

  /** The truthy ids of a list of records, in order. */
  function TruthyIds(snippets: seq<SnippetRecord>): (ids: seq<string>)
    ensures |ids| <= |snippets|
  {
    if snippets == [] then []
    else
      var last := snippets[|snippets| - 1];
      TruthyIds(snippets[..|snippets| - 1]) + (if Truthy(last.id) then [last.id.value] else [])
  }

  /** The `duplicates` list: each truthy id already seen earlier, once per repeat. */
  function Duplicates(snippets: seq<SnippetRecord>): seq<string> {
    if snippets == [] then []
    else
      var init, last := snippets[..|snippets| - 1], snippets[|snippets| - 1];
      Duplicates(init) + (if Truthy(last.id) && last.id.value in TruthyIds(init) then [last.id.value] else [])
  }

  /** An id occurring k >= 1 times among the truthy ids contributes exactly k - 1
    * entries to the duplicates; records without an id are ignored. */
  lemma {:induction false} DuplicatesCount(snippets: seq<SnippetRecord>, x: string)
    ensures Tally(Duplicates(snippets), x) == if Tally(TruthyIds(snippets), x) == 0 then 0 else Tally(TruthyIds(snippets), x) - 1
  {
    if snippets != [] {
      DuplicatesCount(snippets[..|snippets| - 1], x);
    }
  }

  /** No duplicates are reported exactly when the truthy ids are pairwise distinct. */
  lemma DuplicatesEmptyIff(snippets: seq<SnippetRecord>)
    ensures Duplicates(snippets) == [] <==> NoDuplicates(TruthyIds(snippets))
  {
    var ids := TruthyIds(snippets);
    if Duplicates(snippets) == [] {
      forall i, j | 0 <= i < j < |ids| ensures ids[i] != ids[j] {
        if ids[i] == ids[j] {
          DuplicatesCount(snippets, ids[i]);
          TallyTwo(ids, i, j);
        }
      }
    } else {
      var x := Duplicates(snippets)[0];
      DuplicatesCount(snippets, x);
      assert x in multiset(Duplicates(snippets));
      if NoDuplicates(ids) {
        TallyDistinct(ids, x);
      }
    }
  }

  lemma TallyTwo(xs: seq<string>, i: nat, j: nat)
    requires i < j < |xs| && xs[i] == xs[j]
    ensures Tally(xs, xs[i]) >= 2
  {
    assert xs == xs[..i] + [xs[i]] + xs[i + 1..j] + [xs[j]] + xs[j + 1..];
  }

  lemma {:induction false} TallyDistinct(xs: seq<string>, x: string)
    requires NoDuplicates(xs)
    ensures Tally(xs, x) <= 1
  {
    if xs != [] {
      var init := xs[..|xs| - 1];
      assert NoDuplicates(init);
      TallyDistinct(init, x);
      assert xs == init + [xs[|xs| - 1]];
      assert xs[|xs| - 1] !in init by {
        forall i | 0 <= i < |init| ensures init[i] != xs[|xs| - 1] {
          assert init[i] == xs[i];
        }
      }
    }
  }

  // ---------------------------------------------------------------------------
  // Specification of validateLibrary.

  /** One entry of `details`. */
  datatype Detail = Detail(id: string, errors: seq<SnippetError>, warnings: seq<SnippetWarning>)

  datatype Report = Report(
    totalSnippets: nat,
    validSnippets: nat,
    snippetsWithErrors: nat,
    snippetsWithWarnings: nat,
    totalErrors: nat,
    totalWarnings: nat,
    details: seq<Detail>)

  /** A non-empty run of decimal digits without a leading zero, as JavaScript
    * writes a non-negative integer. */
  predicate IsDecimal(r: string) {
    |r| > 0 && (forall i :: 0 <= i < |r| ==> '0' <= r[i] <= '9') && (|r| > 1 ==> r[0] != '0')
  }

  /** The number a run of decimal digits denotes. */
  function DigitsValue(r: string): nat
    requires forall i :: 0 <= i < |r| ==> '0' <= r[i] <= '9'
  {
    if r == [] then 0 else DigitsValue(r[..|r| - 1]) * 10 + (r[|r| - 1] - '0') as nat
  }

  /** `${n}`: the decimal digits of `n`. */
  function Decimal(n: nat): (r: string)
    ensures IsDecimal(r) && DigitsValue(r) == n
  {
    var d := ['0' + (n % 10) as char];
    if n < 10 then d
    else
      var r := Decimal(n / 10) + d;
      assert r[..|r| - 1] == Decimal(n / 10);
      r
  }

  /** Different numbers are written differently. */
  lemma DecimalInjective(m: nat, n: nat)
    ensures Decimal(m) == Decimal(n) ==> m == n
  {
  }

  /** The label of a snippet in `details`: its id, or `#` and its index. */
  function DisplayId(s: SnippetRecord, index: nat): (shown: string)
    ensures Truthy(s.id) ==> shown == s.id.value
    ensures !Truthy(s.id) ==> |shown| > 1 && shown[0] == '#' && IsDecimal(shown[1..]) && DigitsValue(shown[1..]) == index
    ensures !Truthy(s.id) ==> !IsSlug(shown)
  {
    if Truthy(s.id) then s.id.value
    else
      var shown := "#" + Decimal(index);
      assert shown[1..] == Decimal(index);
      shown
  }

  /** Two records without an id at different indices get different labels. */
  lemma DisplayIdDistinct(s: SnippetRecord, t: SnippetRecord, i: nat, j: nat)
    requires !Truthy(s.id) && !Truthy(t.id) && i != j
    ensures DisplayId(s, i) != DisplayId(t, j)
  {
  }

  /** The `details` entry of the record at `index`. */
  function Entry(s: SnippetRecord, index: nat): Detail {
    Detail(DisplayId(s, index), Errors(s), Warnings(s))
  }

  /** `xs.map((x, index) => f(x, index))`. */
  function MapIndexed<S, T>(xs: seq<S>, f: (S, nat) -> T): (ys: seq<T>)
    ensures |ys| == |xs|
  {
    seq(|xs|, k requires 0 <= k < |xs| => f(xs[k], k))
  }

  /** Mapping one more element extends the mapped prefix by its image. */
  lemma MapIndexedStep<S, T>(xs: seq<S>, i: nat, f: (S, nat) -> T)
    requires i < |xs|
    ensures MapIndexed(xs[..i + 1], f) == MapIndexed(xs[..i], f) + [f(xs[i], i)]
  {
    var a := MapIndexed(xs[..i + 1], f);
    var b := MapIndexed(xs[..i], f);
    forall k | 0 <= k < i ensures a[k] == b[k] {
      assert xs[..i + 1][k] == xs[..i][k];
    }
  }

  /** The `details` entries of a list of records: one per record, in input order. */
  function Details(snippets: seq<SnippetRecord>): (ds: seq<Detail>)
    ensures |ds| == |snippets|
  {
    MapIndexed(snippets, Entry)
  }

  /** The entries of one more record extend the entries of the records before it. */
  lemma DetailsStep(snippets: seq<SnippetRecord>, i: nat)
    requires i < |snippets|
    ensures Details(snippets[..i + 1]) == Details(snippets[..i]) + [Entry(snippets[i], i)]
  {
    MapIndexedStep(snippets, i, Entry);
  }

  /** The five counters of the report, accumulated over `details` entries. */
  datatype Tallies = Tallies(valid: nat, withErrors: nat, withWarnings: nat, errors: nat, warnings: nat)

  /** The counters after one more entry. */
  function Count(t: Tallies, d: Detail): Tallies {
    Tallies(
      t.valid + (if d.errors == [] && d.warnings == [] then 1 else 0),
      t.withErrors + (if d.errors != [] then 1 else 0),
      t.withWarnings + (if d.warnings != [] then 1 else 0),
      t.errors + |d.errors|,
      t.warnings + |d.warnings|)
  }

  /** The counters over a sequence of entries. */
  function TallyOf(ds: seq<Detail>): Tallies {
    if ds == [] then Tallies(0, 0, 0, 0, 0)
    else Count(TallyOf(ds[..|ds| - 1]), ds[|ds| - 1])
  }

  /** The report `validateLibrary` returns for a library with a snippets array. */
  function LibraryReport(version: Option<string>, snippets: seq<SnippetRecord>): Report {
    var ds := Details(snippets);
    var t := TallyOf(ds);
    Report(
      |snippets|,
      t.valid,
      t.withErrors,
      t.withWarnings,
      (if Truthy(version) then 0 else 1) + |Duplicates(snippets)| + t.errors,
      t.warnings,
      ds)
  }

  // ---------------------------------------------------------------------------
  // validateLibrary and displaySummary.

  /** The loop over the records with a set of the ids seen so far. */
  method FindDuplicates(snippets: seq<SnippetRecord>) returns (duplicates: seq<string>)
    ensures duplicates == Duplicates(snippets)
  {
    var ids: set<string> := {};
    duplicates := [];
    var i := 0;
    while i < |snippets|
      invariant i <= |snippets|
      invariant duplicates == Duplicates(snippets[..i])
      invariant forall x :: x in ids <==> x in TruthyIds(snippets[..i])
    {
      var s := snippets[i];
      assert snippets[..i + 1][..i] == snippets[..i];
      if Truthy(s.id) {
        if s.id.value in ids {
          duplicates := duplicates + [s.id.value];
        }
        ids := ids + {s.id.value};
      }
      i := i + 1;
    }
    assert snippets[..i] == snippets;
  }


  /** The `details` entry of the record at `i`: its validation results under its
    * display id. */
  method CheckEntry(s: SnippetRecord, i: nat) returns (d: Detail)
    ensures d == Entry(s, i)
  {
    var errors, warnings := ValidateSnippet(s);
    var snippetId := if Truthy(s.id) then s.id.value else "#" + Decimal(i);
    d := Detail(snippetId, errors, warnings);
  }

  /** The counter updates of one loop pass. */
  method CountEntry(t: Tallies, d: Detail) returns (t': Tallies)
    ensures t' == Count(t, d)
  {
    t' := t;
    if |d.errors| > 0 {
      t' := t'.(withErrors := t'.withErrors + 1, errors := t'.errors + |d.errors|);
    }
    if |d.warnings| > 0 {
      t' := t'.(withWarnings := t'.withWarnings + 1, warnings := t'.warnings + |d.warnings|);
    }
    if |d.errors| == 0 && |d.warnings| == 0 {
      t' := t'.(valid := t'.valid + 1);
    }
  }

  /** Appending an entry moves the counters by that entry alone. */
  lemma TallyAppend(ds: seq<Detail>, d: Detail)
    ensures TallyOf(ds + [d]) == Count(TallyOf(ds), d)
  {
    assert (ds + [d])[..|ds|] == ds;
  }

  /** One pass of the loop of `validateLibrary`: validate the record at `i`, append
    * its entry to `details` and move the counters. */
  method RecordEntry(snippets: seq<SnippetRecord>, i: nat, details: seq<Detail>, t: Tallies)
    returns (details': seq<Detail>, t': Tallies)
    requires i < |snippets| && details == Details(snippets[..i]) && t == TallyOf(details)
    ensures details' == Details(snippets[..i + 1]) && t' == TallyOf(details')
  {
    var d := CheckEntry(snippets[i], i);
    t' := CountEntry(t, d);
    details' := details + [d];
    DetailsStep(snippets, i);
    TallyAppend(details, d);
  }

  /** The loop of `validateLibrary` over the records: one entry per record, with
    * the counters that go with them. */
  method CheckAll(snippets: seq<SnippetRecord>) returns (details: seq<Detail>, t: Tallies)
    ensures details == Details(snippets) && t == TallyOf(details)
  {
    t := Tallies(0, 0, 0, 0, 0);
    details := [];
    var i := 0;
    while i < |snippets|
      invariant i <= |snippets|
      invariant details == Details(snippets[..i]) && t == TallyOf(details)
    {
      details, t := RecordEntry(snippets, i, details, t);
      i := i + 1;
    }
    assert snippets[..i] == snippets;
  }

  /** `validateLibrary`. A library without a snippets array ends the process with
    * status 1, modelled as `Failure(1)`. */
  method ValidateLibrary(lib: Library) returns (r: Result<Report, int>)
    ensures lib.snippets.None? ==> r == Failure(1)
    ensures lib.snippets.Some? ==> r == Success(LibraryReport(lib.version, lib.snippets.value))
  {
    var totalErrors := 0;
    if !Truthy(lib.version) {
      totalErrors := totalErrors + 1;
    }
    if lib.snippets.None? {
      return Failure(1);
    }
    var snippets := lib.snippets.value;

    var duplicates := FindDuplicates(snippets);
    totalErrors := totalErrors + |duplicates|;

    var details, t := CheckAll(snippets);
    r := Success(Report(|snippets|, t.valid, t.withErrors, t.withWarnings,
                        totalErrors + t.errors, t.warnings, details));
  }

  /** The exit status chosen by `displaySummary`. */
  function DisplaySummary(r: Report): (status: int)
    ensures status == 0 || status == 1
    ensures status == 0 <==> r.totalErrors == 0
  {
    if r.totalErrors == 0 then 0 else 1
  }

  // ---------------------------------------------------------------------------
  // Properties of the report.


  lemma {:induction false} SumErrorsZeroIff(ds: seq<Detail>)
    ensures TallyOf(ds).errors == 0 <==> forall i :: 0 <= i < |ds| ==> ds[i].errors == []
  {
    if ds != [] {
      var init := ds[..|ds| - 1];
      SumErrorsZeroIff(init);
      assert forall i :: 0 <= i < |init| ==> init[i] == ds[i];
    }
  }

  /** The counters of the report are bounded by one another as the linter promises. */
  lemma {:induction false} TallyBounds(ds: seq<Detail>)
    ensures TallyOf(ds).valid + TallyOf(ds).withErrors <= |ds|
    ensures TallyOf(ds).valid + TallyOf(ds).withWarnings <= |ds|
    ensures TallyOf(ds).withErrors <= TallyOf(ds).errors
    ensures TallyOf(ds).withWarnings <= TallyOf(ds).warnings
    ensures TallyOf(ds).withErrors == 0 <==> TallyOf(ds).errors == 0
  {
    if ds != [] {
      TallyBounds(ds[..|ds| - 1]);
    }
  }

  /** The process succeeds (status 0) exactly when the version is present, no id
    * is repeated and no snippet has an error. */
  lemma ExitStatusZeroIff(version: Option<string>, snippets: seq<SnippetRecord>)
    ensures DisplaySummary(LibraryReport(version, snippets)) == 0
        <==> Truthy(version) && NoDuplicates(TruthyIds(snippets))
             && forall i :: 0 <= i < |snippets| ==> Errors(snippets[i]) == []
  {
    var ds := Details(snippets);
    assert LibraryReport(version, snippets).totalErrors
        == (if Truthy(version) then 0 else 1) + |Duplicates(snippets)| + TallyOf(ds).errors;
    SumErrorsZeroIff(ds);
    DetailsErrorFree(snippets);
    DuplicatesEmptyIff(snippets);
  }


  /** The entries of `details` carry no error exactly when no record has one. */
  lemma DetailsErrorFree(snippets: seq<SnippetRecord>)
    ensures (forall i :: 0 <= i < |Details(snippets)| ==> Details(snippets)[i].errors == [])
        <==> (forall i :: 0 <= i < |snippets| ==> Errors(snippets[i]) == [])
  {
    var ds := Details(snippets);
    forall i | 0 <= i < |snippets| ensures ds[i].errors == Errors(snippets[i]) {
      assert ds[i] == Entry(snippets[i], i);
    }
  }
}
