/**
 * The concrete cases the PlaceholderEngine tests assert, proved on the model,
 * and two inputs showing that replacement is a single pass.
 */
module PlaceholderExamples {
  import opened TokenGrammar
  import opened PlaceholderEngine

  lemma SimpleReplaceExample()
    ensures Replace("const x = \"{{VALUE}}\"", map["VALUE" := "42"]) == "const x = \"42\""
  {
    assert IsName("VALUE");
    var values := map["VALUE" := "42"];
    var head, tail := "const x = \"", "\"";
    assert tail + "" == tail;
    assert head + (Token("VALUE") + tail) == "const x = \"{{VALUE}}\"";
    assert head + ("42" + tail) == "const x = \"42\"";
    ReplacePlainPrefix(tail, "", values);
    ReplaceTokenPrefix("VALUE", tail, values);
    ReplacePlainPrefix(head, Token("VALUE") + tail, values);
  }

  lemma ExtractExample()
    ensures Extract("{{NAME}} and {{AGE}} and {{NAME}}") == ["NAME", "AGE"]
  {
    ExtractInputShape();
    ScanExtractExample();
    DistinctExample();
  }

  lemma ExtractInputShape()
    ensures Token("NAME") + (" and " + (Token("AGE") + (" and " + Token("NAME"))))
            == "{{NAME}} and {{AGE}} and {{NAME}}"
  {
  }

  lemma DistinctExample()
    ensures Distinct(["NAME", "AGE", "NAME"]) == ["NAME", "AGE"]
  {
    var occ := ["NAME", "AGE", "NAME"];
    assert occ[..2] == ["NAME", "AGE"] && ["NAME", "AGE"][..1] == ["NAME"] && ["NAME"][..0] == [];
    assert Distinct(["NAME"]) == ["NAME"];
    assert Distinct(["NAME", "AGE"]) == ["NAME", "AGE"];
  }

  lemma ScanExtractExample()
    ensures Occurrences(Token("NAME") + (" and " + (Token("AGE") + (" and " + Token("NAME"))))) == ["NAME", "AGE", "NAME"]
  {
    assert IsName("NAME");
    var rest := Token("AGE") + (" and " + Token("NAME"));
    ScanExtractTail();
    PlainPrefix(" and ", rest);
    TokenPrefix("NAME", " and " + rest);
  }

  lemma ScanExtractTail()
    ensures Occurrences(Token("AGE") + (" and " + Token("NAME"))) == ["AGE", "NAME"]
  {
    assert IsName("AGE");
    ScanExtractLast();
    TokenPrefix("AGE", " and " + Token("NAME"));
  }

  lemma ScanExtractLast()
    ensures Occurrences(" and " + Token("NAME")) == ["NAME"]
  {
    assert IsName("NAME");
    var s3 := Token("NAME");
    assert s3 + "" == s3;
    TokenPrefix("NAME", "");
    PlainPrefix(" and ", s3);
  }

  lemma ValidateExamples()
    ensures Validate(["NAME", "AGE"], map["NAME" := "John", "AGE" := "30"]) == Validation(true, [])
    ensures Validate(["NAME", "AGE", "EMAIL"], map["NAME" := "John"]) == Validation(false, ["AGE", "EMAIL"])
  {
    var p := map["NAME" := "John"];
    var r := ["NAME", "AGE", "EMAIL"];
    assert r[1..] == ["AGE", "EMAIL"] && r[1..][1..] == ["EMAIL"] && r[1..][1..][1..] == [];
    assert Missing(["EMAIL"], p) == ["EMAIL"];
    assert Missing(["AGE", "EMAIL"], p) == ["AGE", "EMAIL"];
  }

  lemma CountExample()
    ensures Count("{{A}} {{B}} {{A}}") == 3
  {
    assert IsName("A") && IsName("B");
    var s3 := Token("A") + "";
    var s2 := Token("B") + (" " + s3);
    var s1 := Token("A") + (" " + s2);
    assert s1 == "{{A}} {{B}} {{A}}";
    TokenPrefix("A", "");
    PlainPrefix(" ", s3);
    TokenPrefix("B", " " + s3);
    PlainPrefix(" ", s2);
    TokenPrefix("A", " " + s2);
  }

  lemma HasPlaceholdersExamples()
    ensures HasPlaceholders("{{VALUE}}")
    ensures !HasPlaceholders("no placeholders")
  {
    assert IsName("VALUE");
    var plain := "no placeholders";
    assert Token("VALUE") + "" == "{{VALUE}}";
    assert plain + "" == plain;
    TokenPrefix("VALUE", "");
    PlainPrefix(plain, "");
  }

  lemma CreateEmptyValuesExample()
    ensures CreateEmptyValues("{{NAME}} {{AGE}}") == map["NAME" := "", "AGE" := ""]
  {
    ScanCreateEmptyValuesExample();
  }

  lemma ScanCreateEmptyValuesExample()
    ensures Occurrences("{{NAME}} {{AGE}}") == ["NAME", "AGE"]
  {
    assert IsName("AGE") && IsName("NAME");
    var s2 := Token("AGE") + "";
    var s1 := Token("NAME") + (" " + s2);
    assert s1 == "{{NAME}} {{AGE}}";
    TokenPrefix("AGE", "");
    PlainPrefix(" ", s2);
    TokenPrefix("NAME", " " + s2);
  }

  lemma ReplaceWithDefaultsExample()
    ensures ReplaceWithDefaults("{{NAME}} is {{AGE}} years old", map["NAME" := "John"],
                                map["AGE" := "25", "NAME" := "Default"]) == "John is 25 years old"
  {
    var m := map["AGE" := "25", "NAME" := "Default"] + map["NAME" := "John"];
    assert m == map["AGE" := "25", "NAME" := "John"];
    var s2 := "{{AGE}} years old";
    ReplaceWithDefaultsShape();
    ReplaceWithDefaultsResultShape();
    assert IsName("NAME");
    ReplaceWithDefaultsExampleTail();
    ReplacePlainPrefix(" is ", s2, m);
    ReplaceTokenPrefix("NAME", " is " + s2, m);
  }

  // The two string equalities below are kept as separate lemmas: asserted
  // inside ReplaceWithDefaultsExample they make its proof far more expensive.

  lemma ReplaceWithDefaultsShape()
    ensures Token("NAME") + (" is " + "{{AGE}} years old") == "{{NAME}} is {{AGE}} years old"
  {
  }

  lemma ReplaceWithDefaultsResultShape()
    ensures "John" + (" is " + "25 years old") == "John is 25 years old"
  {
  }

  lemma ReplaceWithDefaultsExampleTail()
    ensures Replace("{{AGE}} years old", map["AGE" := "25", "NAME" := "John"]) == "25 years old"
  {
    assert IsName("AGE");
    var m := map["AGE" := "25", "NAME" := "John"];
    var tail := " years old";
    assert tail + "" == tail;
    assert Token("AGE") + tail == "{{AGE}} years old";
    assert "25" + tail == "25 years old";
    ReplacePlainPrefix(tail, "", m);
    ReplaceTokenPrefix("AGE", tail, m);
  }

  lemma FullExpansionCounterexample()
    ensures Occurrences("{{{{A}}}}") == ["A"]
    ensures Replace("{{{{A}}}}", map["A" := "B"]) == "{{B}}"
    ensures Occurrences("{{B}}") == ["B"]
    ensures Replace("{{B}}", map["A" := "B", "B" := "C"]) == "C"
  {
    assert IsName("A") && IsName("B");
    var v := map["A" := "B"];
    var w := map["A" := "B", "B" := "C"];
    var close := "}}";
    var t := Token("A") + close;
    var s := "{{" + t;
    assert s == "{{{{A}}}}";
    assert s[1..] == "{" + t && ("{" + t)[1..] == t;
    assert close + "" == close;
    assert [s[0]] + ([s[1]] + ("B" + close)) == "{{B}}" == Token("B") + "";
    assert TokenAt(s).None?;
    assert TokenAt("{" + t).None?;
    PlainPrefix(close, "");
    ReplacePlainPrefix(close, "", v);
    TokenPrefix("A", close);
    ReplaceTokenPrefix("A", close, v);
    TokenPrefix("B", "");
    ReplaceTokenPrefix("B", "", w);
  }

  /** Replacing twice is not replacing once: with A→B and B→C, one pass over
    * `{{{{A}}}}` gives `{{B}}`, and a second pass turns that into `C`. */
  lemma ReplaceTwiceCounterexample()
    ensures Replace("{{{{A}}}}", map["A" := "B", "B" := "C"]) == "{{B}}"
    ensures Replace(Replace("{{{{A}}}}", map["A" := "B", "B" := "C"]), map["A" := "B", "B" := "C"])
         != Replace("{{{{A}}}}", map["A" := "B", "B" := "C"])
  {
    FullExpansionCounterexample();
    ReplaceAgree("{{{{A}}}}", map["A" := "B", "B" := "C"], map["A" := "B"]);
  }

  /** A stray brace before a token is copied and the token behind it still
    * replaced: `{{{A}}` yields `{` followed by the value of `A`. */
  lemma StrayBraceExample()
    ensures Replace("{{{A}}", map["A" := "x"]) == "{x"
  {
    var values := map["A" := "x"];
    StrayBraceShape();
    assert IsName("A") && Token("A") + "" == Token("A");
    ReplaceUnmatchedPrefix("{", Token("A"), values);
    ReplaceTokenPrefix("A", "", values);
    assert "{" + ("x" + "") == "{x";
  }

  /** No token starts at the stray brace of `{{{A}}`: a brace follows `{{`. */
  lemma StrayBraceShape()
    ensures "{" + Token("A") == "{{{A}}"
    ensures TokenAt(("{" + Token("A"))[0..]).None?
  {
    var s := "{" + Token("A");
    assert s == "{{{A}}";
    assert s[0..] == s && s[2..] == "{A}}";
    assert WordRun(s[2..]) == 0;
  }
}
