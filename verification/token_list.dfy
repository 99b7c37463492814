/**
 * The whitespace-separated token sequence of a class attribute value: its
 * runs of non-whitespace characters, split on ASCII whitespace, with empty
 * tokens ignored. Duplicates are kept, so this is the token sequence as
 * written, not the de-duplicated set a DOMTokenList presents. It is the
 * reference definition against which the composed class strings are checked.
 */
module TokenList {

  /** ASCII whitespace: tab, line feed, form feed, carriage return and space. */
  predicate IsSpace(c: char) {
    c == ' ' || c == '\t' || c == '\n' || c == '\U{0C}' || c == '\r'
  }

  /** A string that holds no whitespace character at all. */
  predicate NoSpace(s: string) {
    forall i :: 0 <= i < |s| ==> !IsSpace(s[i])
  }

  /** A single class name: non-empty and free of whitespace. */
  predicate IsClassName(s: string) {
    s != "" && NoSpace(s)
  }

  /** The length of the run of non-whitespace characters that starts `s`. */
  function WordLength(s: string): (n: nat)
    ensures n <= |s|
    ensures forall i :: 0 <= i < n ==> !IsSpace(s[i])
    ensures n < |s| ==> IsSpace(s[n])
  {
    if s == [] || IsSpace(s[0]) then 0 else 1 + WordLength(s[1..])
  }

  /** The tokens of `s`: its maximal whitespace-free runs, in order. */
  function Tokens(s: string): (r: seq<string>)
    ensures forall i :: 0 <= i < |r| ==> IsClassName(r[i])
    decreases |s|
  {
    if s == [] then []
    else if IsSpace(s[0]) then Tokens(s[1..])
    else
      var n := WordLength(s);
      [s[..n]] + Tokens(s[n..])
  }

  /** The tokens of each string of `parts`, concatenated in order. */
  function AllTokens(parts: seq<string>): seq<string> {
    if parts == [] then [] else Tokens(parts[0]) + AllTokens(parts[1..])
  }

  /** A whitespace-free run ends at the first whitespace character. */
  lemma WordLengthUnique(s: string, m: nat)
    requires m <= |s|
    requires forall i :: 0 <= i < m ==> !IsSpace(s[i])
    requires m < |s| ==> IsSpace(s[m])
    ensures WordLength(s) == m
  {
  }

  /** A single class name is its own only token. */
  lemma {:induction false} TokensOfClassName(s: string)
    requires IsClassName(s)
    ensures Tokens(s) == [s]
  {
    WordLengthUnique(s, |s|);
    assert s[..|s|] == s;
    assert s[|s|..] == [];
  }

  /** A whitespace character splits the token list in two: nothing is glued
      across it and nothing is lost. */
  lemma {:induction false} TokensAroundSpace(a: string, c: char, b: string)
    requires IsSpace(c)
    ensures Tokens(a + [c] + b) == Tokens(a) + Tokens(b)
    decreases |a|
  {
    var s := a + [c] + b;
    if a == [] {
      assert s[1..] == b;
    } else if IsSpace(a[0]) {
      assert s[1..] == a[1..] + [c] + b;
      TokensAroundSpace(a[1..], c, b);
    } else {
      var n := WordLength(a);
      WordLengthUnique(s, n);
      assert s[..n] == a[..n];
      assert s[n..] == a[n..] + [c] + b;
      TokensAroundSpace(a[n..], c, b);
    }
  }

  /** Tokens of a concatenation of two strings. */
  lemma {:induction false} AllTokensAppend(a: seq<string>, b: seq<string>)
    ensures AllTokens(a + b) == AllTokens(a) + AllTokens(b)
  {
    if a != [] {
      assert (a + b)[1..] == a[1..] + b;
      AllTokensAppend(a[1..], b);
    } else {
      assert a + b == b;
    }
  }

  /** When every part is a single class name, the parts are their own token list. */
  lemma {:induction false} AllTokensOfClassNames(parts: seq<string>)
    requires forall i :: 0 <= i < |parts| ==> IsClassName(parts[i])
    ensures AllTokens(parts) == parts
  {
    if parts != [] {
      TokensOfClassName(parts[0]);
      AllTokensOfClassNames(parts[1..]);
    }
  }
}
