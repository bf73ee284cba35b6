/**
 * The placeholder token grammar: `{{` + `[A-Za-z0-9_]+` + `}}`, recognised by
 * scanning left to right without overlap, as the global regular expression
 * `/{{(\w+)}}/g` does in validate-library.js.
 */
module TokenGrammar {
  import opened Wrappers
  import opened Text

  /** `\w`: an ASCII letter, digit or underscore. */
  predicate IsWordChar(c: char) {
    'a' <= c <= 'z' || 'A' <= c <= 'Z' || '0' <= c <= '9' || c == '_'
  }

  /** A token name: one or more word characters. */
  predicate IsName(p: string) {
    |p| > 0 && forall i :: 0 <= i < |p| ==> IsWordChar(p[i])
  }

  /** The literal text of the token named `p`. */
  function Token(p: string): string {
    "{{" + p + "}}"
  }

  /** The length of the longest run of word characters at the front of `s` (`\w+` is greedy). */
  function WordRun(s: string): (n: nat)
    ensures n <= |s|
    ensures forall i :: 0 <= i < n ==> IsWordChar(s[i])
    ensures n < |s| ==> !IsWordChar(s[n])
  {
    if |s| > 0 && IsWordChar(s[0]) then 1 + WordRun(s[1..]) else 0
  }

  /**
   * The length of the name of the token that starts at the front of `s`, if
   * one does. Backtracking the greedy `\w+` never helps: the character after a
   * shorter run is a word character, never the `}` the pattern needs.
   */
  function TokenAt(s: string): (r: Option<nat>)
    ensures r.Some? ==> r.value + 4 <= |s| && IsName(s[2..r.value + 2])
                        && Token(s[2..r.value + 2]) == s[..r.value + 4]
  {
    if |s| >= 2 && s[0] == '{' && s[1] == '{' then
      var n := WordRun(s[2..]);
      if n > 0 && n + 4 <= |s| && s[n + 2] == '}' && s[n + 3] == '}' then Some(n) else None
    else None
  }

  /** Whenever `s` begins with the token for a name `p`, the scanner recognises exactly that token. */
  lemma TokenAtFinds(s: string, p: string)
    requires IsName(p) && Token(p) <= s
    ensures TokenAt(s) == Some(|p|)
  {
    var n := WordRun(s[2..]);
    assert s[2..][|p|] == s[|p| + 2] == '}';
  }

  /**
   * The names of the token occurrences in `s`, in order, repeats included:
   * the capture groups of `s.match(/{{(\w+)}}/g)`. A token takes at least
   * five characters.
   */
  function Occurrences(s: string): (names: seq<string>)
    ensures forall p :: p in names ==> IsName(p)
    ensures 5 * |names| <= |s|
    decreases |s|
  {
    if |s| == 0 then []
    else match TokenAt(s)
      case Some(n) => [s[2..n + 2]] + Occurrences(s[n + 4..])
      case None => Occurrences(s[1..])
  }

  /** No token starts at the front of such text, and its tail is such text too. */
  lemma UnmatchedTail(a: string, rest: string)
    requires a != []
    requires forall i {:trigger TokenAt((a + rest)[i..])} :: 0 <= i < |a| ==> TokenAt((a + rest)[i..]).None?
    ensures TokenAt(a + rest).None? && (a + rest)[1..] == a[1..] + rest
    ensures forall i {:trigger TokenAt((a[1..] + rest)[i..])} :: 0 <= i < |a[1..]| ==> TokenAt((a[1..] + rest)[i..]).None?
  {
    var s := a + rest;
    assert s[0..] == s;
    forall i | 0 <= i < |a[1..]| ensures TokenAt((a[1..] + rest)[i..]).None? {
      assert (a[1..] + rest)[i..] == s[i + 1..];
    }
  }

  /** Text at none of whose positions a token starts contributes no match,
    * whatever follows it; stray braces included. */
  lemma {:induction false} UnmatchedPrefix(a: string, rest: string)
    requires forall i {:trigger TokenAt((a + rest)[i..])} :: 0 <= i < |a| ==> TokenAt((a + rest)[i..]).None?
    ensures Occurrences(a + rest) == Occurrences(rest)
    decreases |a|
  {
    var s := a + rest;
    if a != [] {
      UnmatchedTail(a, rest);
      UnmatchedPrefix(a[1..], rest);
    } else {
      assert s == rest;
    }
  }

  /** Text without an opening brace holds no token, whatever follows it. */
  lemma PlainPrefix(a: string, rest: string)
    requires '{' !in a
    ensures Occurrences(a + rest) == Occurrences(rest)
  {
    forall i | 0 <= i < |a| ensures TokenAt((a + rest)[i..]).None? {
      assert (a + rest)[i..][0] == a[i];
    }
    UnmatchedPrefix(a, rest);
  }

  /** A token at the front is recognised and scanning resumes right after it. */
  lemma TokenPrefix(p: string, rest: string)
    requires IsName(p)
    ensures Occurrences(Token(p) + rest) == [p] + Occurrences(rest)
  {
    var s := Token(p) + rest;
    TokenAtFinds(s, p);
    assert s[2..|p| + 2] == p && s[|p| + 4..] == rest;
  }

  /** A scanned name always occurs literally, delimited, in the text. */
  lemma {:induction false} FoundIsContained(s: string, p: string)
    requires p in Occurrences(s)
    ensures Contains(s, Token(p))
    decreases |s|
  {
    match TokenAt(s)
    case Some(n) =>
      if p == s[2..n + 2] {
        assert OccursAt(s, Token(p), 0);
      } else {
        FoundIsContained(s[n + 4..], p);
        ContainsInSuffix(s, n + 4, Token(p));
      }
    case None =>
      FoundIsContained(s[1..], p);
      ContainsInSuffix(s, 1, Token(p));
  }

  /** What a suffix contains, the whole text contains. */
  lemma ContainsInSuffix(s: string, k: nat, q: string)
    requires k <= |s| && Contains(s[k..], q)
    ensures Contains(s, q)
  {
    var i: nat :| i <= |s[k..]| && OccursAt(s[k..], q, i);
    assert s[k..][i..i + |q|] == s[i + k..i + k + |q|];
    assert OccursAt(s, q, i + k);
  }

  /** Two recognised tokens never overlap: a token occurring at `i` lies after the one at the front. */
  lemma NoOverlap(s: string, n: nat, p: string, i: nat)
    requires TokenAt(s) == Some(n) && IsName(p) && 0 < i && OccursAt(s, Token(p), i)
    ensures n + 4 <= i
  {
    assert s[i] == '{' && s[i + 1] == '{' by {
      assert s[i..i + |Token(p)|][0] == '{' && s[i..i + |Token(p)|][1] == '{';
    }
    assert s[..n + 4][2 + n] == '}' && s[..n + 4][3 + n] == '}';
  }

  /** Every delimited occurrence of a name is recognised by the scan (no match is hidden by an earlier one). */
  lemma {:induction false} ContainedIsFound(s: string, p: string, i: nat)
    requires IsName(p) && OccursAt(s, Token(p), i)
    ensures p in Occurrences(s)
    decreases |s|
  {
    if i == 0 {
      assert Token(p) <= s;
      TokenAtFinds(s, p);
      assert s[2..|p| + 2] == p;
    } else {
      match TokenAt(s)
      case Some(n) =>
        NoOverlap(s, n, p, i);
        assert s[n + 4..][i - n - 4..i - n - 4 + |Token(p)|] == s[i..i + |Token(p)|];
        ContainedIsFound(s[n + 4..], p, i - n - 4);
      case None =>
        assert s[1..][i - 1..i - 1 + |Token(p)|] == s[i..i + |Token(p)|];
        ContainedIsFound(s[1..], p, i - 1);
    }
  }

  /**
   * For a well-formed name, `code.includes('{{' + p + '}}')` and "the scan
   * finds `p`" agree: the two checks of validate-library.js see the same tokens.
   */
  lemma ContainsTokenIff(s: string, p: string)
    requires IsName(p)
    ensures Contains(s, Token(p)) <==> p in Occurrences(s)
  {
    if Contains(s, Token(p)) {
      var i: nat :| i <= |s| && OccursAt(s, Token(p), i);
      ContainedIsFound(s, p, i);
    }
    if p in Occurrences(s) {
      FoundIsContained(s, p);
    }
  }
}
