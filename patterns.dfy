/** Hand-written equivalents of the regular expressions of `validateExpression`: the
    keyed block, the bare block and the combined query pattern, a leftmost-first search
    for the next match, and the global replacement of every match by the empty string.
    Each matcher returns the end of the match that starts at a given position. */
module Patterns {
  import opened Text

  /** The literal body `(?:\\.|(?!q)[^\\])*`: a backslash followed by a character that `.`
      matches, or a character that is neither a backslash nor `q`. */
  predicate EscapedBody(c: string, q: char)
    decreases |c|
  {
    c == []
    || (|c| >= 2 && c[0] == '\\' && !IsLineTerminator(c[1]) && EscapedBody(c[2..], q))
    || (c[0] != '\\' && c[0] != q && EscapedBody(c[1..], q))
  }

  /** The lazy body followed by the closing `q`, from `j` on: the end of the literal.
      At each position the closing quote is tried before another body unit, and the
      two units are told apart by their first character, so nothing is left to
      backtrack into. */
  function LiteralEnd(s: string, j: nat, q: char): (r: Option<nat>)
    requires j <= |s|
    ensures r.Some? ==> j < r.value <= |s|
    decreases |s| - j
  {
    if j == |s| then None
    else if s[j] == q then Some(j + 1)
    else if s[j] == '\\' then
      if j + 1 < |s| && !IsLineTerminator(s[j + 1]) then LiteralEnd(s, j + 2, q) else None
    else LiteralEnd(s, j + 1, q)
  }

  /** The literal ends right after `k` exactly when `s[k]` is the quote and everything
      between is a well-formed body; since a body holds no unescaped `q`, that `k` is
      the first such position and the only one. */
  lemma {:induction false} LiteralEndIff(s: string, j: nat, q: char, k: nat)
    requires j <= k < |s| && q != '\\'
    ensures LiteralEnd(s, j, q) == Some(k + 1) <==> s[k] == q && EscapedBody(s[j..k], q)
    decreases k - j
  {
    var c := s[j..k];
    if j == k {
      assert c == [];
    } else if s[j] == q {
      assert c[0] == q;
    } else if s[j] == '\\' {
      assert c[0] == '\\';
      if j + 1 < |s| && !IsLineTerminator(s[j + 1]) {
        if j + 1 == k {
          assert |c| == 1;
        } else {
          assert c[1] == s[j + 1] && c[2..] == s[j + 2..k];
          LiteralEndIff(s, j + 2, q, k);
        }
      } else {
        assert |c| >= 2 ==> c[1] == s[j + 1];
      }
    } else {
      assert c[0] == s[j] && c[1..] == s[j + 1..k];
      LiteralEndIff(s, j + 1, q, k);
    }
  }

  /** A bare block `(['"])body\1` at `p`. */
  function BareAt(s: string, p: nat): (r: Option<nat>)
    requires p <= |s|
    ensures r.Some? ==> p < r.value <= |s|
  {
    if p < |s| && IsQuote(s[p]) then LiteralEnd(s, p + 1, s[p]) else None
  }

  /** A keyed block `\b[A-Za-z]{2,5}\s*=\s*(['"])body\1` at `p`. The key must be the whole
      letter run: after a shorter prefix comes a letter, which neither `\s` nor `=` can
      match. `\s*` has nothing to give back either, since neither `=` nor a quote is a
      space. `\b` before a letter means that no word character precedes it. */
  function KeyedAt(s: string, p: nat): (r: Option<nat>)
    requires p <= |s|
    ensures r.Some? ==> p < r.value <= |s|
  {
    if p < |s| && IsLetter(s[p]) && NonWordBefore(s, p) then
      var e := LetterRunEnd(s, p);
      if 2 <= e - p <= 5 then
        var a := SkipSpaces(s, e);
        if a < |s| && s[a] == '=' then
          var b := SkipSpaces(s, a + 1);
          if b < |s| && IsQuote(s[b]) then LiteralEnd(s, b + 1, s[b]) else None
        else None
      else None
    else None
  }

  /** One way for the keyed pattern to match at `p` up to `k`: a key of `n` letters,
      spaces, `=` at `a`, spaces, a quote at `b` and a literal. */
  predicate KeyedParse(s: string, p: nat, n: nat, a: nat, b: nat, k: nat) {
    2 <= n <= 5 && p + n <= a < b < |s| && LettersBetween(s, p, p + n)
    && BlankBetween(s, p + n, a) && s[a] == '=' && BlankBetween(s, a + 1, b)
    && IsQuote(s[b]) && LiteralEnd(s, b + 1, s[b]) == Some(k)
  }

  /** The keyed block matches exactly as the pattern reads with backtracking: after a
      word boundary, some way of splitting the text into key, spaces, `=`, spaces, quote
      and literal. */
  lemma KeyedAtIff(s: string, p: nat, k: nat)
    requires p <= |s|
    ensures KeyedAt(s, p) == Some(k) <==>
      NonWordBefore(s, p) && exists n, a, b :: KeyedParse(s, p, n, a, b, k)
  {
    if KeyedAt(s, p) == Some(k) {
      var e := LetterRunEnd(s, p);
      var a := SkipSpaces(s, e);
      var b := SkipSpaces(s, a + 1);
      assert KeyedParse(s, p, e - p, a, b, k);
    }
    if NonWordBefore(s, p) && exists n, a, b :: KeyedParse(s, p, n, a, b, k) {
      var n, a, b :| KeyedParse(s, p, n, a, b, k);
      KeyedParseFound(s, p, n, a, b, k);
    }
  }

  lemma KeyedParseFound(s: string, p: nat, n: nat, a: nat, b: nat, k: nat)
    requires NonWordBefore(s, p) && KeyedParse(s, p, n, a, b, k)
    ensures KeyedAt(s, p) == Some(k)
  {
    assert IsLetter(s[p]);
    assert !IsLetter(s[p + n]) by {
      if p + n < a { assert IsSpace(s[p + n]); }
    }
    LetterRunEndUnique(s, p, p + n);
    SkipSpacesUnique(s, p + n, a);
    SkipSpacesUnique(s, a + 1, b);
  }

  datatype BlockKind = Bare | Keyed

  /** A block pattern on its own (`type1Regex`, `type2Regex`), or the query pattern that
      tries the block first, then `\bAND\b`, `\bOR\b`, `\bNOT\b` case-insensitively, then
      a single parenthesis. The case-insensitive flag leaves `[A-Za-z]` and `\w` as they
      are. */
  datatype Pattern = Block(kind: BlockKind) | Query(query: BlockKind)

  function BlockAt(s: string, kind: BlockKind, p: nat): (r: Option<nat>)
    requires p <= |s|
    ensures r.Some? ==> p < r.value <= |s|
  {
    match kind
    case Bare => BareAt(s, p)
    case Keyed => KeyedAt(s, p)
  }

  /** The end of the match of `pat` that starts at `p`, if any. No alternative matches
      the empty string. */
  function MatchAt(s: string, pat: Pattern, p: nat): (r: Option<nat>)
    requires p <= |s|
    ensures r.Some? ==> p < r.value <= |s|
  {
    match pat
    case Block(kind) => BlockAt(s, kind, p)
    case Query(kind) =>
      if BlockAt(s, kind, p).Some? then BlockAt(s, kind, p)
      else match Keyword(s, p)
        case Some(w) => Some(p + |w|)
        case None => if p < |s| && (s[p] == '(' || s[p] == ')') then Some(p + 1) else None
  }

  /** Which alternative of the query pattern matched: a match that is not a block is a
      keyword or a parenthesis. */
  lemma QueryAlternatives(s: string, kind: BlockKind, p: nat)
    requires p <= |s| && MatchAt(s, Query(kind), p).Some?
    ensures var e := MatchAt(s, Query(kind), p).value;
      BlockAt(s, kind, p) == Some(e)
      || (BlockAt(s, kind, p).None? && Keyword(s, p) == Some(Upper(s[p..e])))
      || (BlockAt(s, kind, p).None? && Keyword(s, p).None? && e == p + 1 && (s[p] == '(' || s[p] == ')'))
  {
  }

  datatype Span = Span(start: nat, end: nat)

  /** `exec` from `from`: the leftmost match at or after `from`. */
  function NextMatch(s: string, pat: Pattern, from: nat): (r: Option<Span>)
    requires from <= |s|
    ensures r.Some? ==> from <= r.value.start < r.value.end <= |s|
                        && MatchAt(s, pat, r.value.start) == Some(r.value.end)
    ensures forall p :: from <= p <= |s| && (r.None? || p < r.value.start) ==> MatchAt(s, pat, p).None?
    decreases |s| - from
  {
    match MatchAt(s, pat, from)
    case Some(e) => Some(Span(from, e))
    case None => if from == |s| then None else NextMatch(s, pat, from + 1)
  }

  /** Some match exists (a global `match` returns a non-empty array). */
  predicate HasMatch(s: string, pat: Pattern) {
    NextMatch(s, pat, 0).Some?
  }

  lemma HasMatchIff(s: string, pat: Pattern)
    ensures HasMatch(s, pat) <==> exists p :: 0 <= p <= |s| && MatchAt(s, pat, p).Some?
  {
    if HasMatch(s, pat) {
      var p := NextMatch(s, pat, 0).value.start;
      assert MatchAt(s, pat, p).Some?;
    }
  }

  /** Conversely, the leftmost match at or after `from` is the one `exec` finds. */
  lemma NextMatchFinds(s: string, pat: Pattern, from: nat, p: nat, e: nat)
    requires from <= p <= |s| && MatchAt(s, pat, p) == Some(e)
    requires forall i :: from <= i < p ==> MatchAt(s, pat, i).None?
    ensures NextMatch(s, pat, from) == Some(Span(p, e))
  {
    var r := NextMatch(s, pat, from);
    assert r.Some?;
    assert r.value.start == p;
  }

  /** `exec` finds nothing exactly when nothing matches at or after `from`. */
  lemma {:induction false} NextMatchNone(s: string, pat: Pattern, from: nat)
    requires from <= |s|
    requires forall i :: from <= i <= |s| ==> MatchAt(s, pat, i).None?
    ensures NextMatch(s, pat, from).None?
    decreases |s| - from
  {
    if from < |s| {
      NextMatchNone(s, pat, from + 1);
    }
  }

  /** Every block holds a quote, so text without quotes holds no block. */
  lemma NoQuoteNoBlock(s: string, kind: BlockKind)
    requires forall j :: 0 <= j < |s| ==> !IsQuote(s[j])
    ensures !HasMatch(s, Block(kind))
  {
    forall p | 0 <= p <= |s| ensures MatchAt(s, Block(kind), p).None? {
    }
    HasMatchIff(s, Block(kind));
  }

  /** The pieces of `s` from `from` on that lie between the successive non-overlapping
      matches of `pat`: before the first, between each two, and after the last. */
  function Gaps(s: string, pat: Pattern, from: nat): (r: seq<string>)
    requires from <= |s|
    ensures |r| > 0
    decreases |s| - from
  {
    match NextMatch(s, pat, from)
    case None => [s[from..]]
    case Some(m) => [s[from..m.start]] + Gaps(s, pat, m.end)
  }

  /** The successive non-overlapping matches of `pat` from `from` on. */
  function Matches(s: string, pat: Pattern, from: nat): (r: seq<Span>)
    requires from <= |s|
    ensures forall m :: m in r ==> from <= m.start < m.end <= |s|
    decreases |s| - from
  {
    match NextMatch(s, pat, from)
    case None => []
    case Some(m) => [m] + Matches(s, pat, m.end)
  }

  function Join(ps: seq<string>): string
    decreases |ps|
  {
    if ps == [] then [] else ps[0] + Join(ps[1..])
  }

  /** Gaps and matched texts, taken in turn, rebuild `ws[0] + t[0] + ws[1] + ... + ws[n]`. */
  function Weave(ws: seq<string>, ts: seq<string>): string
    requires |ws| == |ts| + 1
    decreases |ts|
  {
    if ts == [] then ws[0] else ws[0] + ts[0] + Weave(ws[1..], ts[1..])
  }

  function Texts(s: string, ms: seq<Span>): seq<string>
    requires forall m :: m in ms ==> m.start <= m.end <= |s|
  {
    seq(|ms|, k requires 0 <= k < |ms| => s[ms[k].start..ms[k].end])
  }

  lemma TextsCons(s: string, m: Span, ms: seq<Span>)
    requires m.start <= m.end <= |s| && forall m' :: m' in ms ==> m'.start <= m'.end <= |s|
    ensures Texts(s, [m] + ms) == [s[m.start..m.end]] + Texts(s, ms)
  {
  }

  /** The gaps and the matches tile the input: every character is in exactly one of
      them, in order. */
  lemma {:induction false} GapsAndMatchesTile(s: string, pat: Pattern, from: nat)
    requires from <= |s|
    ensures |Gaps(s, pat, from)| == |Matches(s, pat, from)| + 1
    ensures Weave(Gaps(s, pat, from), Texts(s, Matches(s, pat, from))) == s[from..]
    decreases |s| - from
  {
    var r := NextMatch(s, pat, from);
    if r.Some? {
      var m := r.value;
      GapsAndMatchesTile(s, pat, m.end);
      GapsAndMatchesStep(s, pat, from, m);
    }
  }

  lemma GapsAndMatchesStep(s: string, pat: Pattern, from: nat, m: Span)
    requires from <= |s| && NextMatch(s, pat, from) == Some(m)
    requires |Gaps(s, pat, m.end)| == |Matches(s, pat, m.end)| + 1
    requires Weave(Gaps(s, pat, m.end), Texts(s, Matches(s, pat, m.end))) == s[m.end..]
    ensures |Gaps(s, pat, from)| == |Matches(s, pat, from)| + 1
    ensures Weave(Gaps(s, pat, from), Texts(s, Matches(s, pat, from))) == s[from..]
  {
    assert Gaps(s, pat, from) == [s[from..m.start]] + Gaps(s, pat, m.end);
    assert Matches(s, pat, from) == [m] + Matches(s, pat, m.end);
    TileCons(s, from, m, Gaps(s, pat, m.end), Matches(s, pat, m.end));
  }

  /** A gap and a match in front of a tiling of the rest give a tiling from `from`. */
  lemma TileCons(s: string, from: nat, m: Span, ws: seq<string>, ms: seq<Span>)
    requires from <= m.start < m.end <= |s|
    requires forall m' :: m' in ms ==> m'.start <= m'.end <= |s|
    requires |ws| == |ms| + 1 && Weave(ws, Texts(s, ms)) == s[m.end..]
    ensures Weave([s[from..m.start]] + ws, Texts(s, [m] + ms)) == s[from..]
  {
    TextsCons(s, m, ms);
    var g := s[from..m.start];
    var t := s[m.start..m.end];
    WeaveCons(g, t, ws, Texts(s, ms));
    assert s[from..] == g + t + s[m.end..];
  }

  lemma WeaveCons(w: string, t: string, ws: seq<string>, ts: seq<string>)
    requires |ws| == |ts| + 1
    ensures Weave([w] + ws, [t] + ts) == w + t + Weave(ws, ts)
  {
    assert ([w] + ws)[1..] == ws;
    assert ([t] + ts)[1..] == ts;
  }

  /** `s.replace(pat, '')` with a global pattern: the gaps, joined. */
  function RemoveMatches(s: string, pat: Pattern): string {
    Join(Gaps(s, pat, 0))
  }

  /** Removing the matches of a pattern that does not match leaves the text as it is. */
  lemma RemoveNothing(s: string, pat: Pattern)
    requires !HasMatch(s, pat)
    ensures RemoveMatches(s, pat) == s
  {
    assert Gaps(s, pat, 0) == [s[0..]];
    assert Join([s[0..]]) == s[0..] + Join([]);
    assert s[0..] == s;
  }
}
