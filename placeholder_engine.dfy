/**
 * The placeholder engine whose behaviour tests/PlaceholderEngine.test.js
 * pins down: stateless functions over a code template and name-to-value maps.
 * Tokens are those of the shared grammar in module TokenGrammar.
 */
module PlaceholderEngine {
  import opened TokenGrammar
  import opened Text

  /** The index at which `x` first appears in `xs`. */
  function FirstIndex(xs: seq<string>, x: string): (k: nat)
    requires x in xs
    ensures k < |xs| && xs[k] == x && x !in xs[..k]
  {
    if xs[0] == x then 0 else 1 + FirstIndex(xs[1..], x)
  }

  /** `xs` without repeats, each name kept where it is first seen. */
  function Distinct(xs: seq<string>): (d: seq<string>)
    ensures NoDuplicates(d)
    ensures forall x :: x in d <==> x in xs
    ensures |d| <= |xs|
  {
    if xs == [] then []
    else
      var prefix, x := xs[..|xs| - 1], xs[|xs| - 1];
      assert xs == prefix + [x];
      var d := Distinct(prefix);
      if x in d then d else d + [x]
  }

  /** `extract`: the distinct token names of `code`. */
  function Extract(code: string): (names: seq<string>)
    ensures NoDuplicates(names)
    ensures forall x :: x in names <==> x in Occurrences(code)
    ensures forall i :: 0 <= i < |names| ==> IsName(names[i])
  {
    Distinct(Occurrences(code))
  }

  /** `count`: the number of token occurrences, repeats included. */
  function Count(code: string): (n: nat)
    ensures 5 * n <= |code|
  {
    |Occurrences(code)|
  }

  /** `hasPlaceholders`. */
  function HasPlaceholders(code: string): (b: bool)
    ensures b <==> Count(code) > 0
  {
    var occ := Occurrences(code);
    assert occ != [] ==> occ[0] in Extract(code);
    |Extract(code)| > 0
  }

  /** The result of `validate`. */
  datatype Validation = Validation(valid: bool, missing: seq<string>)

  /** The required names that are not keys of `provided`, in their order. */
  function Missing(required: seq<string>, provided: map<string, string>): (m: seq<string>)
    ensures |m| <= |required|
  {
    if required == [] then []
    else (if required[0] in provided then [] else [required[0]]) + Missing(required[1..], provided)
  }

  /** `missing` holds exactly the required names that are not provided. */
  lemma {:induction false} MissingMembers(required: seq<string>, provided: map<string, string>)
    ensures forall x :: x in Missing(required, provided) <==> x in required && x !in provided
  {
    if required != [] {
      MissingMembers(required[1..], provided);
      assert required == [required[0]] + required[1..];
    }
  }

  /** `validate`: presence is existence of the key, so an empty string counts as provided. */
  function Validate(required: seq<string>, provided: map<string, string>): (r: Validation)
    ensures r.valid <==> r.missing == []
    ensures r.valid <==> forall x :: x in required ==> x in provided
    ensures forall x :: x in r.missing <==> x in required && x !in provided
  {
    var m := Missing(required, provided);
    MissingMembers(required, provided);
    assert m != [] ==> m[0] in m;
    Validation(m == [], m)
  }

  /** `createEmptyValues`: every token name of `code` mapped to the empty string. */
  function CreateEmptyValues(code: string): (m: map<string, string>)
    ensures forall x :: x in m <==> x in Occurrences(code)
    ensures forall x :: x in m ==> m[x] == ""
  {
    map x | x in Extract(code) :: ""
  }

  /**
   * `replace`: one pass over `code`; a token whose name is mapped becomes its
   * value, any other token and all other text stay as they are. Inserted values
   * are never scanned again.
   */
  function Replace(code: string, values: map<string, string>): string
    decreases |code|
  {
    if |code| == 0 then ""
    else match TokenAt(code)
      case Some(n) =>
        var name := code[2..n + 2];
        (if name in values then values[name] else code[..n + 4]) + Replace(code[n + 4..], values)
      case None => [code[0]] + Replace(code[1..], values)
  }

  /** `replaceWithDefaults`: `replace` with the caller's values laid over the defaults. */
  function ReplaceWithDefaults(code: string, values: map<string, string>,
                               defaults: map<string, string>): (r: string)
    ensures (forall x :: x in Occurrences(code) ==> x in values) ==> r == Replace(code, values)
    ensures (forall x :: x in Occurrences(code) ==> x !in values) ==> r == Replace(code, defaults)
  {
    LayeredReplace(code, values, defaults);
    Replace(code, defaults + values)
  }

  /** Laying `values` over `defaults` gives the caller's value to every token
    * the caller maps, and the default to every other token. */
  lemma LayeredReplace(code: string, values: map<string, string>, defaults: map<string, string>)
    ensures (forall x :: x in Occurrences(code) ==> x in values) ==> Replace(code, defaults + values) == Replace(code, values)
    ensures (forall x :: x in Occurrences(code) ==> x !in values) ==> Replace(code, defaults + values) == Replace(code, defaults)
  {
    if forall x :: x in Occurrences(code) ==> x in values {
      ReplaceAgree(code, defaults + values, values);
    }
    if forall x :: x in Occurrences(code) ==> x !in values {
      ReplaceAgree(code, defaults + values, defaults);
    }
  }

  // ---------------------------------------------------------------------
  // Properties

  /** Two names of `Distinct(xs)` keep the order of their first appearance in `xs`. */
  lemma {:induction false} ExtractFirstSeenOrder(xs: seq<string>)
    ensures forall i, j :: 0 <= i < j < |Distinct(xs)| ==>
              FirstIndex(xs, Distinct(xs)[i]) < FirstIndex(xs, Distinct(xs)[j])
  {
    if xs != [] {
      var prefix, x := xs[..|xs| - 1], xs[|xs| - 1];
      assert xs == prefix + [x];
      ExtractFirstSeenOrder(prefix);
      var d := Distinct(prefix);
      forall y | y in prefix
        ensures FirstIndex(xs, y) == FirstIndex(prefix, y)
      {
        FirstIndexInPrefix(xs, y);
      }
      if x !in d {
        assert FirstIndex(xs, x) == |prefix| by {
          var k := FirstIndex(xs, x);
        }
        assert Distinct(xs) == d + [x];
        forall i | 0 <= i < |d|
          ensures FirstIndex(xs, d[i]) < |prefix|
        {
          assert d[i] in prefix;
        }
      }
    }
  }

  lemma FirstIndexInPrefix(xs: seq<string>, y: string)
    requires xs != [] && y in xs[..|xs| - 1]
    ensures FirstIndex(xs, y) == FirstIndex(xs[..|xs| - 1], y)
  {
    var prefix := xs[..|xs| - 1];
    var k1, k2 := FirstIndex(prefix, y), FirstIndex(xs, y);
  }

  /** `Distinct` drops nothing exactly when there are no repeats. */
  lemma {:induction false} DistinctLength(xs: seq<string>)
    ensures |Distinct(xs)| == |xs| <==> NoDuplicates(xs)
  {
    if xs != [] {
      var prefix, x := xs[..|xs| - 1], xs[|xs| - 1];
      assert xs == prefix + [x];
      DistinctLength(prefix);
      if NoDuplicates(xs) {
        assert NoDuplicates(prefix) by {
          forall i, j | 0 <= i < j < |prefix| ensures prefix[i] != prefix[j] {
            assert prefix[i] == xs[i] && prefix[j] == xs[j];
          }
        }
      }
      if |Distinct(xs)| == |xs| {
        assert x !in Distinct(prefix);
      }
    }
  }

  /** `count` is at least the size of `extract`, with equality exactly when no token repeats. */
  lemma CountVersusExtract(code: string)
    ensures Count(code) >= |Extract(code)|
    ensures Count(code) == |Extract(code)| <==> NoDuplicates(Occurrences(code))
  {
    DistinctLength(Occurrences(code));
  }

  /** `hasPlaceholders` holds exactly when a recognised token starts somewhere in `code`. */
  lemma HasPlaceholdersIff(code: string)
    ensures HasPlaceholders(code) <==> exists i :: 0 <= i < |code| && TokenAt(code[i..]).Some?
  {
    if HasPlaceholders(code) {
      var i := TokenStartOfFirst(code);
      assert TokenAt(code[i..]).Some?;
    }
    if exists i :: 0 <= i < |code| && TokenAt(code[i..]).Some? {
      var i :| 0 <= i < |code| && TokenAt(code[i..]).Some?;
      TokenStartIsFound(code, i);
    }
  }

  lemma TokenStartOfFirst(code: string) returns (i: nat)
    requires Occurrences(code) != []
    ensures i < |code| && TokenAt(code[i..]).Some?
  {
    var p := Occurrences(code)[0];
    FoundIsContained(code, p);
    i :| i <= |code| && OccursAt(code, Token(p), i);
    assert Token(p) <= code[i..];
    TokenAtFinds(code[i..], p);
  }

  lemma TokenStartIsFound(code: string, i: nat)
    requires i < |code| && TokenAt(code[i..]).Some?
    ensures Occurrences(code) != []
  {
    var t := code[i..];
    var n := TokenAt(t).value;
    var p := t[2..n + 2];
    assert code[i..i + |Token(p)|] == t[..n + 4];
    ContainedIsFound(code, p, i);
  }

  /** `missing` keeps the order of `required`: it distributes over concatenation. */
  lemma {:induction false} MissingKeepsOrder(a: seq<string>, b: seq<string>, provided: map<string, string>)
    ensures Missing(a + b, provided) == Missing(a, provided) + Missing(b, provided)
  {
    if a == [] {
      assert a + b == b;
    } else {
      var ab := a + b;
      assert ab[0] == a[0] && ab[1..] == a[1..] + b;
      MissingKeepsOrder(a[1..], b, provided);
      var h := if a[0] in provided then [] else [a[0]];
      assert Missing(ab, provided) == h + (Missing(a[1..], provided) + Missing(b, provided));
    }
  }

  /** A form seeded by `createEmptyValues` passes `validate` against the names `extract` finds. */
  lemma EmptyValuesValidate(code: string)
    ensures Validate(Extract(code), CreateEmptyValues(code)) == Validation(true, [])
  {
  }

  /** With no values at all, replacement copies the code. */
  lemma {:induction false} ReplaceNothing(code: string)
    ensures Replace(code, map[]) == code
    decreases |code|
  {
    if |code| > 0 {
      match TokenAt(code)
      case Some(n) =>
        ReplaceNothing(code[n + 4..]);
        assert code == code[..n + 4] + code[n + 4..];
      case None =>
        ReplaceNothing(code[1..]);
        assert code == [code[0]] + code[1..];
    }
  }

  /** Tokens whose names are not mapped are left verbatim; the rest of the text is never touched. */
  lemma ReplaceUnmapped(code: string, values: map<string, string>)
    requires forall x :: x in Occurrences(code) ==> x !in values
    ensures Replace(code, values) == code
  {
    ReplaceAgree(code, values, map[]);
    ReplaceNothing(code);
  }

  /** `replace` reads `values` only at the names that occur in `code`. */
  lemma {:induction false} ReplaceAgree(code: string, m1: map<string, string>, m2: map<string, string>)
    requires forall x :: x in Occurrences(code) ==> (x in m1 <==> x in m2)
    requires forall x :: x in Occurrences(code) && x in m1 ==> m1[x] == m2[x]
    ensures Replace(code, m1) == Replace(code, m2)
    decreases |code|
  {
    if |code| > 0 {
      match TokenAt(code)
      case Some(n) => ReplaceAgree(code[n + 4..], m1, m2);
      case None => ReplaceAgree(code[1..], m1, m2);
    }
  }

  /** Where no token starts, the first character is copied and the scan moves on. */
  lemma ReplaceUnmatchedStep(s: string, values: map<string, string>)
    requires s != [] && TokenAt(s).None?
    ensures Replace(s, values) == [s[0]] + Replace(s[1..], values)
  {
  }

  /** Putting the head back in front of the tail and the suffix restores the whole. */
  lemma ConsTail<T>(a: seq<T>, r: seq<T>)
    requires a != []
    ensures [a[0]] + (a[1..] + r) == a + r
  {
    assert a == [a[0]] + a[1..];
  }

  /** Text at none of whose positions a token starts is copied through
    * unchanged, stray braces included. */
  lemma {:induction false} ReplaceUnmatchedPrefix(a: string, rest: string, values: map<string, string>)
    requires forall i {:trigger TokenAt((a + rest)[i..])} :: 0 <= i < |a| ==> TokenAt((a + rest)[i..]).None?
    ensures Replace(a + rest, values) == a + Replace(rest, values)
    decreases |a|
  {
    if a != [] {
      UnmatchedTail(a, rest);
      ReplaceUnmatchedStep(a + rest, values);
      ReplaceUnmatchedPrefix(a[1..], rest, values);
      ConsTail(a, Replace(rest, values));
    } else {
      assert a + rest == rest;
    }
  }

  /** Text without an opening brace is copied through unchanged. */
  lemma ReplacePlainPrefix(a: string, rest: string, values: map<string, string>)
    requires '{' !in a
    ensures Replace(a + rest, values) == a + Replace(rest, values)
  {
    forall i | 0 <= i < |a| ensures TokenAt((a + rest)[i..]).None? {
      assert (a + rest)[i..][0] == a[i];
    }
    ReplaceUnmatchedPrefix(a, rest, values);
  }

  /** A token at the front becomes its value when mapped and stays verbatim otherwise. */
  lemma ReplaceTokenPrefix(p: string, rest: string, values: map<string, string>)
    requires IsName(p)
    ensures Replace(Token(p) + rest, values)
            == (if p in values then values[p] else Token(p)) + Replace(rest, values)
  {
    var s := Token(p) + rest;
    TokenAtFinds(s, p);
    assert s[2..|p| + 2] == p && s[|p| + 4..] == rest && s[..|p| + 4] == Token(p);
  }

  /** `replaceWithDefaults` token by token: a token at the front takes the
    * caller's value when there is one, else the default, else stays verbatim. */
  lemma ReplaceWithDefaultsTokenPrefix(p: string, rest: string, values: map<string, string>,
                                       defaults: map<string, string>)
    requires IsName(p)
    ensures ReplaceWithDefaults(Token(p) + rest, values, defaults)
            == (if p in values then values[p] else if p in defaults then defaults[p] else Token(p))
               + ReplaceWithDefaults(rest, values, defaults)
  {
    ReplaceTokenPrefix(p, rest, defaults + values);
  }

  /** Replacement is not recursive: a mapped token becomes its value verbatim, tokens in the value included. */
  lemma ReplaceSingleToken(p: string, values: map<string, string>)
    requires IsName(p) && p in values
    ensures Replace(Token(p), values) == values[p]
  {
    TokenAtFinds(Token(p), p);
    assert Token(p)[2..|p| + 2] == p;
    assert Token(p)[|p| + 4..] == "";
  }
}
