/** Character classes and string helpers shared by the lexer and the validator.
    Strings are sequences of characters; JavaScript's `\s`, `\w`, `[A-Za-z]`,
    `trim` and the ASCII part of `toUpperCase` are written out here. */
module Text {

  datatype Option<T> = None | Some(value: T)

  /** JavaScript's `\s` class (WhiteSpace and LineTerminator); `String.prototype.trim`
      strips exactly the same characters. */
  predicate IsSpace(c: char) {
    c == '\t' || c == '\n' || c == '\U{000B}' || c == '\U{000C}' || c == '\r' || c == ' '
    || c == '\U{00A0}' || c == '\U{1680}' || ('\U{2000}' <= c <= '\U{200A}')
    || c == '\U{2028}' || c == '\U{2029}' || c == '\U{202F}' || c == '\U{205F}'
    || c == '\U{3000}' || c == '\U{FEFF}'
  }

  /** `[A-Za-z]` */
  predicate IsLetter(c: char) {
    'A' <= c <= 'Z' || 'a' <= c <= 'z'
  }

  /** `\w`, that is `[A-Za-z0-9_]`; `\W` is its complement. */
  predicate IsWordChar(c: char) {
    IsLetter(c) || '0' <= c <= '9' || c == '_'
  }

  /** The characters a regular-expression `.` does not match. */
  predicate IsLineTerminator(c: char) {
    c == '\n' || c == '\r' || c == '\U{2028}' || c == '\U{2029}'
  }

  /** The two quote characters that open a literal. */
  predicate IsQuote(c: char) {
    c == '"' || c == '\''
  }

  predicate IsBlank(s: string) {
    forall j :: 0 <= j < |s| ==> IsSpace(s[j])
  }

  /** Every character of `s[a..b]` is a space. */
  predicate BlankBetween(s: string, a: nat, b: nat)
    requires a <= b <= |s|
  {
    forall j :: a <= j < b ==> IsSpace(s[j])
  }

  predicate AllLetters(s: string) {
    forall j :: 0 <= j < |s| ==> IsLetter(s[j])
  }

  /** Every character of `s[a..b]` is an ASCII letter. */
  predicate LettersBetween(s: string, a: nat, b: nat)
    requires a <= b <= |s|
  {
    forall j :: a <= j < b ==> IsLetter(s[j])
  }

  /** No word character at position `p` (or `p` is past the end). */
  predicate NonWordAt(s: string, p: nat) {
    p >= |s| || !IsWordChar(s[p])
  }

  /** No word character just before position `p` (or `p` is the start). */
  predicate NonWordBefore(s: string, p: nat) {
    p == 0 || (p <= |s| && !IsWordChar(s[p - 1]))
  }

  /** Upper-casing, restricted to ASCII a-z. */
  function UpperChar(c: char): char {
    if 'a' <= c <= 'z' then (c as int - 32) as char else c
  }

  function Upper(s: string): string {
    seq(|s|, j requires 0 <= j < |s| => UpperChar(s[j]))
  }

  lemma UpperIdempotent(s: string)
    ensures Upper(Upper(s)) == Upper(s)
  {
  }

  lemma UpperConcat(a: string, b: string)
    ensures Upper(a + b) == Upper(a) + Upper(b)
  {
  }

  /** The ASCII letters of a keyword come back from upper-casing only as themselves or
      their lower-case forms. `Upper(w) == "AND"` is a case-insensitive comparison. */
  lemma UpperOnlyFoldsCase(s: string, j: nat)
    requires j < |s|
    ensures Upper(s)[j] == s[j] || ('a' <= s[j] <= 'z' && Upper(s)[j] as int == s[j] as int - 32)
  {
  }

  /** End of the maximal run of spaces starting at `j` (the `while (... /\s/ ...) i++` scans). */
  function SkipSpaces(s: string, j: nat): (k: nat)
    requires j <= |s|
    ensures j <= k <= |s|
    ensures BlankBetween(s, j, k)
    ensures k == |s| || !IsSpace(s[k])
    decreases |s| - j
  {
    if j < |s| && IsSpace(s[j]) then SkipSpaces(s, j + 1) else j
  }

  /** A run of spaces from `j` that is maximal on the right ends where `SkipSpaces` stops. */
  lemma SkipSpacesUnique(s: string, j: nat, k: nat)
    requires j <= k <= |s| && BlankBetween(s, j, k) && (k == |s| || !IsSpace(s[k]))
    ensures SkipSpaces(s, j) == k
  {
  }

  /** End of the maximal run of ASCII letters starting at `j`. */
  function LetterRunEnd(s: string, j: nat): (k: nat)
    requires j <= |s|
    ensures j <= k <= |s|
    ensures LettersBetween(s, j, k)
    ensures k == |s| || !IsLetter(s[k])
    decreases |s| - j
  {
    if j < |s| && IsLetter(s[j]) then LetterRunEnd(s, j + 1) else j
  }

  /** A run of letters from `j` that is maximal on the right ends where `LetterRunEnd` stops. */
  lemma LetterRunEndUnique(s: string, j: nat, k: nat)
    requires j <= k <= |s| && LettersBetween(s, j, k) && (k == |s| || !IsLetter(s[k]))
    ensures LetterRunEnd(s, j) == k
  {
  }

  /** Start of the maximal run of spaces that ends at `hi`, not going below `lo`. */
  function TrailingSpacesStart(s: string, lo: nat, hi: nat): (k: nat)
    requires lo <= hi <= |s|
    ensures lo <= k <= hi
    ensures BlankBetween(s, k, hi)
    ensures k == lo || !IsSpace(s[k - 1])
    decreases hi
  {
    if lo < hi && IsSpace(s[hi - 1]) then TrailingSpacesStart(s, lo, hi - 1) else hi
  }

  /** `String.prototype.trim`: the slice of `s` between its leading and trailing spaces. */
  function Trim(s: string): (t: string)
    ensures t == [] <==> IsBlank(s)
    ensures t != [] ==> !IsSpace(t[0]) && !IsSpace(t[|t| - 1])
    ensures exists a, b :: 0 <= a <= b <= |s| && t == s[a..b] && BlankBetween(s, 0, a) && BlankBetween(s, b, |s|)
  {
    var a := SkipSpaces(s, 0);
    var b := TrailingSpacesStart(s, a, |s|);
    s[a..b]
  }

  function Min(a: nat, b: nat): nat {
    if a <= b then a else b
  }

  /** `AND`, `NOT` or `OR` starting at `i`, matched case-insensitively between non-word
      characters or the edges of the input (`\bAND\b`, `\bNOT\b`, `\bOR\b`). At most one
      of the three can match at a position, so the order they are tried in does not matter. */
  function Keyword(s: string, i: nat): (r: Option<string>)
    requires i <= |s|
    ensures r.Some? ==> (r.value == "AND" || r.value == "NOT" || r.value == "OR")
                        && i + |r.value| <= |s| && Upper(s[i..i + |r.value|]) == r.value
                        && NonWordBefore(s, i) && NonWordAt(s, i + |r.value|)
  {
    var upper3 := Upper(s[i..Min(i + 3, |s|)]);
    if (upper3 == "AND" || upper3 == "NOT") && NonWordBefore(s, i) && NonWordAt(s, i + 3) then Some(upper3)
    else if Upper(s[i..Min(i + 2, |s|)]) == "OR" && NonWordBefore(s, i) && NonWordAt(s, i + 2) then Some("OR")
    else None
  }

  /** Each keyword is recognised exactly where it stands between word boundaries. */
  lemma KeywordIff(s: string, i: nat, w: string)
    requires i <= |s|
    requires w == "AND" || w == "NOT" || w == "OR"
    ensures Keyword(s, i) == Some(w) <==>
      i + |w| <= |s| && Upper(s[i..i + |w|]) == w && NonWordBefore(s, i) && NonWordAt(s, i + |w|)
  {
    if i + |w| <= |s| && Upper(s[i..i + |w|]) == w && NonWordBefore(s, i) && NonWordAt(s, i + |w|) {
      if w == "OR" {
        var upper3 := Upper(s[i..Min(i + 3, |s|)]);
        assert upper3[0] == Upper(s[i..i + 2])[0] == 'O';
        assert upper3 != "AND" && upper3 != "NOT";
        assert Min(i + 2, |s|) == i + 2;
      }
    }
  }
}
