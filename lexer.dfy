/** The highlighting lexer of the query editor (`tokenize`, `tokensToHtml`,
    `highlightCode`). It classifies every character of the input into tokens and
    never fails. */
module Lexer {
  import opened Text

  datatype TokenType = Key | KeyInvalid | Str | Logic | Punct | Quote | Ws | Other

  datatype Token = Token(kind: TokenType, value: string)

  /** The field keys the editor is configured with; every operation takes the key
      list as a parameter, and this is the list the editor passes. */
  const DefaultKeys: seq<string> := ["TI", "AB", "DP", "URL"]

  /** The characters that end a run of plain text: `(`, `)`, `=` and the two quotes. */
  predicate IsDelimiter(c: char) {
    c == '(' || c == ')' || c == '=' || IsQuote(c)
  }

  predicate IsPlain(c: char) {
    !IsSpace(c) && !IsDelimiter(c)
  }

  /** End of the maximal run of plain characters starting at `j`. */
  function PlainRunEnd(s: string, j: nat): (k: nat)
    requires j <= |s|
    ensures j <= k <= |s|
    ensures forall m :: j <= m < k ==> IsPlain(s[m])
    ensures k == |s| || !IsPlain(s[k])
    decreases |s| - j
  {
    if j < |s| && IsPlain(s[j]) then PlainRunEnd(s, j + 1) else j
  }

  /** The lookahead `\s*=\s*["']` after a letter run that ends at `j`. */
  function KeyLookahead(s: string, j: nat): bool
    requires j <= |s|
  {
    var a := SkipSpaces(s, j);
    a < |s| && s[a] == '=' && (var b := SkipSpaces(s, a + 1); b < |s| && IsQuote(s[b]))
  }

  /** The lookahead holds exactly when optional spaces, `=`, optional spaces and a quote
      follow position `j`. */
  lemma KeyLookaheadIff(s: string, j: nat)
    requires j <= |s|
    ensures KeyLookahead(s, j) <==>
      exists a, b :: j <= a < b < |s| && BlankBetween(s, j, a) && s[a] == '='
                     && BlankBetween(s, a + 1, b) && IsQuote(s[b])
  {
    if KeyLookahead(s, j) {
      var a := SkipSpaces(s, j);
      var b := SkipSpaces(s, a + 1);
      assert j <= a < b < |s| && BlankBetween(s, j, a) && s[a] == '=' && BlankBetween(s, a + 1, b) && IsQuote(s[b]);
    } else if exists a, b :: j <= a < b < |s| && BlankBetween(s, j, a) && s[a] == '='
                            && BlankBetween(s, a + 1, b) && IsQuote(s[b]) {
      var a, b :| j <= a < b < |s| && BlankBetween(s, j, a) && s[a] == '='
                  && BlankBetween(s, a + 1, b) && IsQuote(s[b]);
      KeyLookaheadWitness(s, j, a, b);
    }
  }

  lemma KeyLookaheadWitness(s: string, j: nat, a: nat, b: nat)
    requires j <= a < b < |s| && BlankBetween(s, j, a) && s[a] == '='
    requires BlankBetween(s, a + 1, b) && IsQuote(s[b])
    ensures KeyLookahead(s, j)
  {
    SkipSpacesUnique(s, j, a);
    SkipSpacesUnique(s, a + 1, b);
  }

  /** Content grammar of a highlighted literal opened by `q`: backslash pairs (the second
      character may be anything) and characters other than `q`; a lone backslash can only
      be the last character of a literal that the input ends inside (`open`). */
  predicate LexBody(c: string, q: char, open: bool)
    decreases |c|
  {
    c == []
    || (c[0] == '\\' && (if |c| >= 2 then LexBody(c[2..], q, open) else open))
    || (c[0] != '\\' && c[0] != q && LexBody(c[1..], q, open))
  }

  /** What the inner loop of a quoted literal gathers: the raw content, the index after
      the literal, and whether the closing quote was found. */
  datatype Literal = Literal(content: string, next: nat, closed: bool)

  /** Scanning the content of a literal opened by `q`, starting at `j`. */
  function ScanLiteral(s: string, j: nat, q: char): (r: Literal)
    requires j <= |s| && IsQuote(q)
    ensures j < r.next <= |s| || (j == r.next == |s| && !r.closed)
    decreases |s| - j
  {
    if j == |s| then Literal([], |s|, false)
    else if s[j] == '\\' && j + 1 < |s| then
      var r := ScanLiteral(s, j + 2, q);
      Literal(s[j..j + 2] + r.content, r.next, r.closed)
    else if s[j] == q then Literal([], j + 1, true)
    else
      var r := ScanLiteral(s, j + 1, q);
      Literal([s[j]] + r.content, r.next, r.closed)
  }

  /** `r` with `p` put in front of its content. */
  function Prepend(p: string, r: Literal): Literal {
    Literal(p + r.content, r.next, r.closed)
  }

  lemma PrependPrepend(a: string, b: string, r: Literal)
    ensures Prepend(a, Prepend(b, r)) == Prepend(a + b, r)
  {
    assert a + (b + r.content) == (a + b) + r.content;
  }

  /** One step of the literal scan over a backslash pair. */
  lemma ScanLiteralPair(s: string, j: nat, q: char)
    requires j + 1 < |s| && IsQuote(q) && s[j] == '\\'
    ensures ScanLiteral(s, j, q) == Prepend([s[j], s[j + 1]], ScanLiteral(s, j + 2, q))
  {
    assert s[j..j + 2] == [s[j], s[j + 1]];
  }

  /** One step of the literal scan over a single character. */
  lemma ScanLiteralChar(s: string, j: nat, q: char)
    requires j < |s| && IsQuote(q) && s[j] != q && !(s[j] == '\\' && j + 1 < |s|)
    ensures ScanLiteral(s, j, q) == Prepend([s[j]], ScanLiteral(s, j + 1, q))
  {
  }

  /** The content of a scanned literal is the raw text after the opening quote, well
      formed by `LexBody`; a closed literal ends with `q` right after its content, and an
      open one runs to the end of the input. */
  predicate LiteralFits(s: string, j: nat, q: char, r: Literal) {
    j + |r.content| <= |s| && r.content == s[j..j + |r.content|]
    && LexBody(r.content, q, !r.closed)
    && (if r.closed then j + |r.content| < |s| && s[j + |r.content|] == q && r.next == j + |r.content| + 1
        else j + |r.content| == |s| && r.next == |s|)
  }

  /** Prefixing one content unit (`u`: a backslash pair, a character other than a backslash
      and `q`, or a backslash that is the last character of the input) keeps a literal
      fitting. */
  lemma LiteralFitsPrefix(s: string, j: nat, q: char, u: string, r: Literal)
    requires j + |u| <= |s| && s[j..j + |u|] == u
    requires (|u| == 2 && u[0] == '\\') || (|u| == 1 && u[0] != '\\' && u[0] != q)
             || (|u| == 1 && u[0] == '\\' && j + 1 == |s|)
    requires LiteralFits(s, j + |u|, q, r)
    ensures LiteralFits(s, j, q, Prepend(u, r))
  {
    var c := u + r.content;
    assert c[|u|..] == r.content;
    assert c[0] == u[0];
    assert j + |c| <= |s|;
    assert s[j..j + |c|] == s[j..j + |u|] + s[j + |u|..j + |c|];
  }

  lemma {:induction false} ScanLiteralShape(s: string, j: nat, q: char)
    requires j <= |s| && IsQuote(q)
    ensures LiteralFits(s, j, q, ScanLiteral(s, j, q))
    decreases |s| - j
  {
    if j == |s| || (s[j] == q && !(s[j] == '\\' && j + 1 < |s|)) {
      ScanLiteralStops(s, j, q);
    } else if s[j] == '\\' && j + 1 < |s| {
      ScanLiteralShape(s, j + 2, q);
      ScanLiteralPair(s, j, q);
      LiteralFitsPrefix(s, j, q, [s[j], s[j + 1]], ScanLiteral(s, j + 2, q));
    } else {
      ScanLiteralShape(s, j + 1, q);
      ScanLiteralChar(s, j, q);
      LiteralFitsPrefix(s, j, q, [s[j]], ScanLiteral(s, j + 1, q));
    }
  }

  /** The literal scan stops at the end of the input or at the closing quote. */
  lemma ScanLiteralStops(s: string, j: nat, q: char)
    requires j <= |s| && IsQuote(q)
    requires j == |s| || (s[j] == q && !(s[j] == '\\' && j + 1 < |s|))
    ensures LiteralFits(s, j, q, ScanLiteral(s, j, q))
  {
    assert s[j..j] == [];
  }

  /** A literal whose content is well formed up to a quote at `k` closes at `k`: an
      escaped quote never closes it. */
  lemma {:induction false} ScanLiteralCloses(s: string, j: nat, k: nat, q: char)
    requires j <= k < |s| && IsQuote(q)
    requires LexBody(s[j..k], q, false) && s[k] == q
    ensures ScanLiteral(s, j, q) == Literal(s[j..k], k + 1, true)
    decreases k - j
  {
    if j < k {
      var c := s[j..k];
      if c[0] == '\\' {
        assert |c| >= 2;
        assert c[2..] == s[j + 2..k];
        ScanLiteralCloses(s, j + 2, k, q);
        assert s[j..j + 2] + s[j + 2..k] == s[j..k];
      } else {
        assert c[1..] == s[j + 1..k];
        ScanLiteralCloses(s, j + 1, k, q);
        assert [s[j]] + s[j + 1..k] == s[j..k];
      }
    }
  }

  /** A literal whose remaining content has no unescaped `q` runs to the end of the input. */
  lemma {:induction false} ScanLiteralRunsToEnd(s: string, j: nat, q: char)
    requires j <= |s| && IsQuote(q)
    requires LexBody(s[j..], q, true)
    ensures ScanLiteral(s, j, q) == Literal(s[j..], |s|, false)
    decreases |s| - j
  {
    if j < |s| {
      var c := s[j..];
      if c[0] == '\\' {
        if |c| >= 2 {
          assert c[2..] == s[j + 2..];
          ScanLiteralRunsToEnd(s, j + 2, q);
          assert s[j..j + 2] + s[j + 2..] == s[j..];
        }
      } else {
        assert c[1..] == s[j + 1..];
        ScanLiteralRunsToEnd(s, j + 1, q);
        assert [s[j]] + s[j + 1..] == s[j..];
      }
    }
  }

  /** The tokens the scanner emits at one position, and where it continues. */
  datatype Step = Step(group: seq<Token>, next: nat)

  /** A run of whitespace at `i`. */
  function SpaceStep(s: string, i: nat): (r: Step)
    requires i < |s| && IsSpace(s[i])
    ensures i < r.next <= |s|
  {
    var e := SkipSpaces(s, i);
    Step([Token(Ws, s[i..e])], e)
  }

  /** A quoted literal opened at `i`: the opening quote, the raw content when there is
      any, and the closing quote when the input has one. */
  function QuotedStep(s: string, i: nat): (r: Step)
    requires i < |s| && IsQuote(s[i])
    ensures i < r.next <= |s|
  {
    var lit := ScanLiteral(s, i + 1, s[i]);
    Step([Token(Quote, [s[i]])]
         + (if |lit.content| > 0 then [Token(Str, lit.content)] else [])
         + (if lit.closed then [Token(Quote, [s[i]])] else []),
         lit.next)
  }

  /** A run of letters at `i`: a key (valid or not) when the key lookahead follows it,
      other text otherwise. */
  function LetterStep(keys: seq<string>, s: string, i: nat): (r: Step)
    requires i < |s| && IsLetter(s[i])
    ensures i < r.next <= |s|
  {
    var e := LetterRunEnd(s, i);
    var kind := if KeyLookahead(s, e) then (if s[i..e] in keys then Key else KeyInvalid) else Other;
    Step([Token(kind, s[i..e])], e)
  }

  /** A run of plain text at `i`. */
  function PlainStep(s: string, i: nat): (r: Step)
    requires i < |s| && IsPlain(s[i])
    ensures i < r.next <= |s|
  {
    var e := PlainRunEnd(s, i);
    Step([Token(Other, s[i..e])], e)
  }

  /** A keyword, a letter run or plain text at `i`. */
  function WordStep(keys: seq<string>, s: string, i: nat): (r: Step)
    requires i < |s| && IsPlain(s[i])
    ensures i < r.next <= |s|
  {
    match Keyword(s, i)
    case Some(w) => Step([Token(Logic, w)], i + |w|)
    case None => if IsLetter(s[i]) then LetterStep(keys, s, i) else PlainStep(s, i)
  }

  /** One iteration of the scanner's main loop at position `i`. */
  function Scan(keys: seq<string>, s: string, i: nat): (r: Step)
    requires i < |s|
    ensures i < r.next <= |s|
  {
    var ch := s[i];
    if IsSpace(ch) then SpaceStep(s, i)
    else if ch == '(' || ch == ')' || ch == '=' then Step([Token(Punct, [ch])], i + 1)
    else if IsQuote(ch) then QuotedStep(s, i)
    else WordStep(keys, s, i)
  }

  /** The tokens of `s` from position `i` on. */
  function TokensFrom(keys: seq<string>, s: string, i: nat): seq<Token>
    requires i <= |s|
    decreases |s| - i
  {
    if i == |s| then [] else
    var st := Scan(keys, s, i);
    st.group + TokensFrom(keys, s, st.next)
  }

  /** The tokens of the whole input: what `tokenize` returns. */
  function Tokens(keys: seq<string>, s: string): seq<Token> {
    TokensFrom(keys, s, 0)
  }

  /** The inner loop of a quoted literal: gathers the raw content after the opening
      quote, keeping backslash pairs whole, until the same quote or the end of the input. */
  method ReadLiteral(code: string, start: nat, quoteType: char) returns (strContent: string, i: nat, hasClosing: bool)
    requires start <= |code| && IsQuote(quoteType)
    ensures Literal(strContent, i, hasClosing) == ScanLiteral(code, start, quoteType)
  {
    i := start;
    strContent := "";
    hasClosing := false;
    assert Prepend(strContent, ScanLiteral(code, i, quoteType)) == ScanLiteral(code, start, quoteType);
    while i < |code|
      invariant i <= |code| && !hasClosing
      invariant Prepend(strContent, ScanLiteral(code, i, quoteType)) == ScanLiteral(code, start, quoteType)
      decreases |code| - i
    {
      if code[i] == '\\' && i + 1 < |code| {
        ScanLiteralPair(code, i, quoteType);
        PrependPrepend(strContent, [code[i], code[i + 1]], ScanLiteral(code, i + 2, quoteType));
        strContent := strContent + [code[i], code[i + 1]];
        i := i + 2;
      } else if code[i] == quoteType {
        hasClosing := true;
        i := i + 1;
        break;
      } else {
        ScanLiteralChar(code, i, quoteType);
        PrependPrepend(strContent, [code[i]], ScanLiteral(code, i + 1, quoteType));
        strContent := strContent + [code[i]];
        i := i + 1;
      }
    }
  }

  /** `while (i < code.length && /\s/.test(code[i])) i++` */
  method ReadSpaces(code: string, start: nat) returns (i: nat)
    requires start <= |code|
    ensures i == SkipSpaces(code, start)
  {
    i := start;
    while i < |code| && IsSpace(code[i])
      invariant start <= i <= |code|
      invariant SkipSpaces(code, i) == SkipSpaces(code, start)
    {
      i := i + 1;
    }
  }

  /** The scan over a run of letters. */
  method ReadLetters(code: string, start: nat) returns (i: nat)
    requires start <= |code|
    ensures i == LetterRunEnd(code, start)
  {
    i := start;
    while i < |code| && IsLetter(code[i])
      invariant start <= i <= |code|
      invariant LetterRunEnd(code, i) == LetterRunEnd(code, start)
    {
      i := i + 1;
    }
  }

  /** The scan over a run of plain text, up to a space, a parenthesis, `=` or a quote. */
  method ReadPlain(code: string, start: nat) returns (i: nat)
    requires start <= |code|
    ensures i == PlainRunEnd(code, start)
  {
    i := start;
    while i < |code| && !IsSpace(code[i]) && !(code[i] in ['(', ')', '=', '"', '\''])
      invariant start <= i <= |code|
      invariant PlainRunEnd(code, i) == PlainRunEnd(code, start)
    {
      i := i + 1;
    }
  }

  /** The key lookahead with its own cursor `tempI`: spaces, `=`, spaces, a quote. */
  method FollowedByAssignment(code: string, i: nat) returns (b: bool)
    requires i <= |code|
    ensures b == KeyLookahead(code, i)
  {
    var tempI := ReadSpaces(code, i);
    b := false;
    if tempI < |code| && code[tempI] == '=' {
      tempI := ReadSpaces(code, tempI + 1);
      b := tempI < |code| && (code[tempI] == '"' || code[tempI] == '\'');
    }
  }

  /** One iteration of `tokenize`'s main loop: the tokens it pushes and the new index. */
  method ScanStep(keys: seq<string>, code: string, i: nat) returns (group: seq<Token>, next: nat)
    requires i < |code|
    ensures Step(group, next) == Scan(keys, code, i)
  {
    var ch := code[i];
    if IsSpace(ch) {
      next := ReadSpaces(code, i);
      group := [Token(Ws, code[i..next])];
      return;
    }
    if ch == '(' || ch == ')' {
      group, next := [Token(Punct, [ch])], i + 1;
      return;
    }
    if ch == '=' {
      group, next := [Token(Punct, [ch])], i + 1;
      return;
    }

    if ch == '"' || ch == '\'' {
      var quoteType := ch;
      var strContent, hasClosing;
      strContent, next, hasClosing := ReadLiteral(code, i + 1, quoteType);
      group := [Token(Quote, [quoteType])];
      if |strContent| > 0 {
        group := group + [Token(Str, strContent)];
      }
      if hasClosing {
        group := group + [Token(Quote, [quoteType])];
      }
      return;
    }

    assert Scan(keys, code, i) == WordStep(keys, code, i);
    var upper3 := Upper(code[i..Min(i + 3, |code|)]);
    if upper3 == "AND" || upper3 == "NOT" {
      var before := i == 0 || !IsWordChar(code[i - 1]);
      var after := i + 3 >= |code| || !IsWordChar(code[i + 3]);
      if before && after {
        assert Keyword(code, i) == Some(upper3);
        group, next := [Token(Logic, upper3)], i + 3;
        return;
      }
    }
    var upper2 := Upper(code[i..Min(i + 2, |code|)]);
    if upper2 == "OR" {
      var before := i == 0 || !IsWordChar(code[i - 1]);
      var after := i + 2 >= |code| || !IsWordChar(code[i + 2]);
      if before && after {
        assert Keyword(code, i) == Some("OR");
        group, next := [Token(Logic, "OR")], i + 2;
        return;
      }
    }

    assert Keyword(code, i) == None;
    if IsLetter(ch) {
      next := ReadLetters(code, i);
      var maybeKey := code[i..next];
      var isKey := FollowedByAssignment(code, next);
      if isKey {
        var cls := if maybeKey in keys then Key else KeyInvalid;
        group := [Token(cls, maybeKey)];
      } else {
        group := [Token(Other, maybeKey)];
      }
      return;
    }

    next := ReadPlain(code, i);
    if i < next {
      group := [Token(Other, code[i..next])];
    } else {
      // The current character always satisfies the run condition, so the
      // single-character fallback of `tokenize` never runs.
      assert false;
    }
  }

  /** `tokenize`: the scanner's main loop. */
  method Tokenize(keys: seq<string>, code: string) returns (tokens: seq<Token>)
    ensures tokens == Tokens(keys, code)
  {
    tokens := [];
    var i := 0;
    while i < |code|
      invariant 0 <= i <= |code|
      invariant tokens + TokensFrom(keys, code, i) == Tokens(keys, code)
      decreases |code| - i
    {
      var group, next := ScanStep(keys, code, i);
      assert TokensFrom(keys, code, i) == group + TokensFrom(keys, code, next);
      assert (tokens + group) + TokensFrom(keys, code, next) == tokens + (group + TokensFrom(keys, code, next));
      tokens := tokens + group;
      i := next;
    }
  }

  // ---------------------------------------------------------------------------
  // What the tokens say about the input

  function Flatten(ts: seq<Token>): string
    decreases |ts|
  {
    if ts == [] then [] else ts[0].value + Flatten(ts[1..])
  }

  /** Where token `k` starts in the input. */
  function Offset(ts: seq<Token>, k: nat): nat
    requires k <= |ts|
  {
    |Flatten(ts[..k])|
  }

  lemma OffsetStep(ts: seq<Token>, k: nat)
    requires 0 < k <= |ts|
    ensures Offset(ts, k) == |ts[0].value| + Offset(ts[1..], k - 1)
  {
    assert ts[..k][0] == ts[0];
    assert ts[..k][1..] == ts[1..][..k - 1];
  }

  /** The tokens `ts` stand one after another from position `o` to position `e`, and each
      passes `ok` at the position where it starts. */
  predicate Chain(ok: (nat, Token) -> bool, ts: seq<Token>, o: nat, e: nat)
    decreases |ts|
  {
    if ts == [] then o == e else ok(o, ts[0]) && Chain(ok, ts[1..], o + |ts[0].value|, e)
  }

  lemma {:induction false} ChainConcat(ok: (nat, Token) -> bool, a: seq<Token>, b: seq<Token>, o: nat, m: nat, e: nat)
    requires Chain(ok, a, o, m) && Chain(ok, b, m, e)
    ensures Chain(ok, a + b, o, e)
    decreases |a|
  {
    if a != [] {
      assert (a + b)[0] == a[0];
      assert (a + b)[1..] == a[1..] + b;
      ChainConcat(ok, a[1..], b, o + |a[0].value|, m, e);
    } else {
      assert a + b == b;
    }
  }

  /** The token at index `k` of a chain passes `ok` at its offset. */
  lemma {:induction false} ChainAt(ok: (nat, Token) -> bool, ts: seq<Token>, o: nat, e: nat, k: nat)
    requires Chain(ok, ts, o, e) && k < |ts|
    ensures ok(o + Offset(ts, k), ts[k])
    decreases k
  {
    if k > 0 {
      ChainAt(ok, ts[1..], o + |ts[0].value|, e, k - 1);
      OffsetStep(ts, k);
    }
  }

  lemma {:induction false} ChainLength(ok: (nat, Token) -> bool, ts: seq<Token>, o: nat, e: nat)
    requires Chain(ok, ts, o, e)
    ensures o + |Flatten(ts)| == e
    decreases |ts|
  {
    if ts != [] {
      ChainLength(ok, ts[1..], o + |ts[0].value|, e);
    }
  }

  lemma {:induction false} ChainFromAll(ok: (nat, Token) -> bool, ts: seq<Token>, o: nat, e: nat)
    requires o + |Flatten(ts)| == e
    requires forall k :: 0 <= k < |ts| ==> ok(o + Offset(ts, k), ts[k])
    ensures Chain(ok, ts, o, e)
    decreases |ts|
  {
    if ts != [] {
      var n := |ts[0].value|;
      assert ok(o + Offset(ts, 0), ts[0]);
      forall k | 0 <= k < |ts[1..]| ensures ok(o + n + Offset(ts[1..], k), ts[1..][k]) {
        OffsetStep(ts, k + 1);
        assert ok(o + Offset(ts, k + 1), ts[k + 1]);
      }
      ChainFromAll(ok, ts[1..], o + n, e);
    }
  }

  /** A chain is a tiling of `o..e` whose every token passes `ok` at its offset. */
  lemma ChainAll(ok: (nat, Token) -> bool, ts: seq<Token>, o: nat, e: nat)
    ensures Chain(ok, ts, o, e) <==>
      o + |Flatten(ts)| == e && forall k :: 0 <= k < |ts| ==> ok(o + Offset(ts, k), ts[k])
  {
    if Chain(ok, ts, o, e) {
      ChainLength(ok, ts, o, e);
      forall k | 0 <= k < |ts| ensures ok(o + Offset(ts, k), ts[k]) {
        ChainAt(ok, ts, o, e, k);
      }
    } else if o + |Flatten(ts)| == e && forall k :: 0 <= k < |ts| ==> ok(o + Offset(ts, k), ts[k]) {
      ChainFromAll(ok, ts, o, e);
    }
  }

  /** A token's value is the text it covers, except that a logic keyword is upper-cased. */
  predicate Spells(t: Token, src: string) {
    if t.kind == Logic then t.value == Upper(src) else t.value == src
  }

  /** A letter run at `o` of length `n` that is a key: it is a maximal run of letters and
      is followed by the key lookahead. */
  predicate IsKeyRun(s: string, o: nat, n: nat)
    requires o + n <= |s|
  {
    LettersBetween(s, o, o + n) && (o + n == |s| || !IsLetter(s[o + n])) && KeyLookahead(s, o + n)
  }

  /** What a token of each kind, standing at position `o`, says about the input. */
  predicate Shaped(keys: seq<string>, s: string, o: nat, t: Token) {
    var n := |t.value|;
    0 < n && o + n <= |s| && Spells(t, s[o..o + n]) &&
    match t.kind
    case Ws => BlankBetween(s, o, o + n) && (o + n == |s| || !IsSpace(s[o + n]))
    case Punct => t.value == "(" || t.value == ")" || t.value == "="
    case Quote => n == 1 && IsQuote(t.value[0])
    case Str =>
      0 < o && IsQuote(s[o - 1]) && LexBody(t.value, s[o - 1], o + n == |s|)
      && (o + n == |s| || s[o + n] == s[o - 1])
    case Logic =>
      (t.value == "AND" || t.value == "NOT" || t.value == "OR")
      && NonWordBefore(s, o) && NonWordAt(s, o + n)
    case Key => IsKeyRun(s, o, n) && t.value in keys
    case KeyInvalid => IsKeyRun(s, o, n) && t.value !in keys
    case Other =>
      if IsLetter(s[o]) then
        LettersBetween(s, o, o + n) && (o + n == |s| || !IsLetter(s[o + n])) && !KeyLookahead(s, o + n)
      else
        (forall m :: o <= m < o + n ==> IsPlain(s[m])) && (o + n == |s| || !IsPlain(s[o + n]))
  }

  function ShapeCheck(keys: seq<string>, s: string): (nat, Token) -> bool {
    (o: nat, t: Token) => Shaped(keys, s, o, t)
  }

  lemma SpaceStepShaped(keys: seq<string>, s: string, i: nat)
    requires i < |s| && IsSpace(s[i])
    ensures Chain(ShapeCheck(keys, s), SpaceStep(s, i).group, i, SpaceStep(s, i).next)
  {
    var e := SkipSpaces(s, i);
    assert Shaped(keys, s, i, Token(Ws, s[i..e]));
  }

  lemma QuotedStepShaped(keys: seq<string>, s: string, i: nat)
    requires i < |s| && IsQuote(s[i])
    ensures Chain(ShapeCheck(keys, s), QuotedStep(s, i).group, i, QuotedStep(s, i).next)
  {
    var ok := ShapeCheck(keys, s);
    var ch := s[i];
    var lit := ScanLiteral(s, i + 1, ch);
    ScanLiteralShape(s, i + 1, ch);
    var open := [Token(Quote, [ch])];
    var body := if |lit.content| > 0 then [Token(Str, lit.content)] else [];
    var close := if lit.closed then [Token(Quote, [ch])] else [];
    var m := i + 1 + |lit.content|;
    assert Shaped(keys, s, i, Token(Quote, [ch]));
    assert Chain(ok, open, i, i + 1);
    assert Chain(ok, body, i + 1, m) by {
      if |lit.content| > 0 {
        assert Shaped(keys, s, i + 1, Token(Str, lit.content));
      }
    }
    assert Chain(ok, close, m, lit.next) by {
      if lit.closed {
        assert s[m..m + 1] == [ch];
        assert Shaped(keys, s, m, Token(Quote, [ch]));
      }
    }
    ChainConcat(ok, open, body, i, i + 1, m);
    ChainConcat(ok, open + body, close, i, m, lit.next);
  }

  lemma LetterStepShaped(keys: seq<string>, s: string, i: nat)
    requires i < |s| && IsLetter(s[i])
    ensures Chain(ShapeCheck(keys, s), LetterStep(keys, s, i).group, i, LetterStep(keys, s, i).next)
  {
    var e := LetterRunEnd(s, i);
    assert s[i..e][0] == s[i];
    assert Shaped(keys, s, i, LetterStep(keys, s, i).group[0]);
  }

  lemma PlainStepShaped(keys: seq<string>, s: string, i: nat)
    requires i < |s| && IsPlain(s[i]) && !IsLetter(s[i])
    ensures Chain(ShapeCheck(keys, s), PlainStep(s, i).group, i, PlainStep(s, i).next)
  {
    var e := PlainRunEnd(s, i);
    assert Shaped(keys, s, i, Token(Other, s[i..e]));
  }

  /** Every group of tokens one scanner step emits is shaped as its kinds say. */
  lemma ScanShaped(keys: seq<string>, s: string, i: nat)
    requires i < |s|
    ensures Chain(ShapeCheck(keys, s), Scan(keys, s, i).group, i, Scan(keys, s, i).next)
  {
    var ch := s[i];
    if IsSpace(ch) {
      SpaceStepShaped(keys, s, i);
    } else if ch == '(' || ch == ')' || ch == '=' {
      assert Shaped(keys, s, i, Token(Punct, [ch]));
    } else if IsQuote(ch) {
      QuotedStepShaped(keys, s, i);
    } else {
      match Keyword(s, i)
      case Some(w) =>
        assert Shaped(keys, s, i, Token(Logic, w));
      case None =>
        if IsLetter(ch) {
          LetterStepShaped(keys, s, i);
        } else {
          PlainStepShaped(keys, s, i);
        }
    }
  }

  lemma {:induction false} TokensFromShaped(keys: seq<string>, s: string, i: nat)
    requires i <= |s|
    ensures Chain(ShapeCheck(keys, s), TokensFrom(keys, s, i), i, |s|)
    decreases |s| - i
  {
    if i < |s| {
      var st := Scan(keys, s, i);
      ScanShaped(keys, s, i);
      TokensFromShaped(keys, s, st.next);
      ChainConcat(ShapeCheck(keys, s), st.group, TokensFrom(keys, s, st.next), i, st.next, |s|);
    }
  }

  /** Every token of the input is non-empty and shaped as its kind says at the place
      where it stands, and the tokens cover the input exactly. */
  lemma TokenShapes(keys: seq<string>, s: string)
    ensures |Flatten(Tokens(keys, s))| == |s|
    ensures forall k :: 0 <= k < |Tokens(keys, s)| ==>
      Shaped(keys, s, Offset(Tokens(keys, s), k), Tokens(keys, s)[k])
  {
    TokensFromShaped(keys, s, 0);
    ChainAll(ShapeCheck(keys, s), Tokens(keys, s), 0, |s|);
  }

  /** Every emitted token has a non-empty value. */
  lemma TokensNonEmpty(keys: seq<string>, s: string)
    ensures forall t :: t in Tokens(keys, s) ==> |t.value| > 0
  {
    TokenShapes(keys, s);
    var ts := Tokens(keys, s);
    forall t | t in ts ensures |t.value| > 0 {
      var k :| 0 <= k < |ts| && ts[k] == t;
    }
  }

  /** A logic keyword token standing at `o` was typed as it is shown (upper-case); every
      other token is shown as typed anyway. */
  predicate KeywordTyped(s: string, o: nat, t: Token) {
    t.kind == Logic ==> o + |t.value| <= |s| && s[o..o + |t.value|] == t.value
  }

  function TypedCheck(s: string): (nat, Token) -> bool {
    (o: nat, t: Token) => KeywordTyped(s, o, t)
  }

  /** A chain stays a chain under any weaker check. */
  lemma {:induction false} ChainWeaken(ok: (nat, Token) -> bool, ok': (nat, Token) -> bool, ts: seq<Token>, o: nat, e: nat)
    requires forall p, t :: ok(p, t) ==> ok'(p, t)
    requires Chain(ok, ts, o, e)
    ensures Chain(ok', ts, o, e)
    decreases |ts|
  {
    if ts != [] {
      ChainWeaken(ok, ok', ts[1..], o + |ts[0].value|, e);
    }
  }

  /** A token that stands inside `s` at `o` and spells its source text up to case, and
      exactly when it passes `TypedCheck`. */
  function SpellCheck(s: string): (nat, Token) -> bool {
    (o: nat, t: Token) =>
      o + |t.value| <= |s| && Upper(t.value) == Upper(s[o..o + |t.value|])
      && (TypedCheck(s)(o, t) <==> t.value == s[o..o + |t.value|])
  }

  lemma ShapedSpells(keys: seq<string>, s: string)
    ensures forall p, t :: ShapeCheck(keys, s)(p, t) ==> SpellCheck(s)(p, t)
  {
    forall p: nat, t: Token | ShapeCheck(keys, s)(p, t) ensures SpellCheck(s)(p, t) {
      assert Shaped(keys, s, p, t);
      var src := s[p..p + |t.value|];
      assert Spells(t, src);
      if t.kind == Logic {
        UpperIdempotent(src);
      }
      assert Upper(t.value) == Upper(src);
      assert TypedCheck(s)(p, t) <==> t.value == src;
    }
  }

  lemma {:induction false} FlattenMatchesUpToCase(ts: seq<Token>, s: string, o: nat, e: nat)
    requires o <= |s| && Chain(SpellCheck(s), ts, o, e)
    ensures o <= e <= |s|
    ensures Upper(Flatten(ts)) == Upper(s[o..e])
    ensures Flatten(ts) == s[o..e] <==> Chain(TypedCheck(s), ts, o, e)
    decreases |ts|
  {
    if ts != [] {
      var t := ts[0];
      var n := |t.value|;
      assert SpellCheck(s)(o, t);
      var src := s[o..o + n];
      var rest := Flatten(ts[1..]);
      FlattenMatchesUpToCase(ts[1..], s, o + n, e);
      assert s[o..e] == src + s[o + n..e];
      assert Flatten(ts) == t.value + rest;
      UpperConcat(t.value, rest);
      UpperConcat(src, s[o + n..e]);
      if t.value + rest == src + s[o + n..e] {
        assert (t.value + rest)[..n] == t.value;
        assert (src + s[o + n..e])[..n] == src;
        assert (t.value + rest)[n..] == rest;
        assert (src + s[o + n..e])[n..] == s[o + n..e];
      }
    }
  }

  /** Token `k` of `ts`, when it is a logic keyword, was typed at its offset in `s`
      exactly as it is shown. */
  predicate TypedAsShown(ts: seq<Token>, s: string, k: nat)
    requires k < |ts|
  {
    KeywordTyped(s, Offset(ts, k), ts[k])
  }

  lemma ChainLossless(ts: seq<Token>, s: string)
    requires Chain(SpellCheck(s), ts, 0, |s|)
    ensures |Flatten(ts)| == |s|
    ensures Upper(Flatten(ts)) == Upper(s)
    ensures Flatten(ts) == s <==> forall k :: 0 <= k < |ts| ==> TypedAsShown(ts, s, k)
  {
    FlattenMatchesUpToCase(ts, s, 0, |s|);
    assert s[0..|s|] == s;
    ChainAll(TypedCheck(s), ts, 0, |s|);
    forall k | 0 <= k < |ts|
      ensures TypedAsShown(ts, s, k) <==> TypedCheck(s)(0 + Offset(ts, k), ts[k])
    {
    }
  }

  /** Concatenating the token values gives back the input with the letters of the logic
      keywords upper-cased: the lengths agree, the upper-cased texts agree, and the
      concatenation is the input itself exactly when every keyword was typed upper-case. */
  lemma LosslessUpToKeywordCase(keys: seq<string>, s: string)
    ensures |Flatten(Tokens(keys, s))| == |s|
    ensures Upper(Flatten(Tokens(keys, s))) == Upper(s)
    ensures Flatten(Tokens(keys, s)) == s <==>
      forall k :: 0 <= k < |Tokens(keys, s)| ==> TypedAsShown(Tokens(keys, s), s, k)
  {
    TokensFromShaped(keys, s, 0);
    ShapedSpells(keys, s);
    ChainWeaken(ShapeCheck(keys, s), SpellCheck(s), Tokens(keys, s), 0, |s|);
    ChainLossless(Tokens(keys, s), s);
  }

  /** An opening quote followed by well-formed content and the same quote gives the
      opening quote, the content as one string token when it is non-empty, and the
      closing quote. */
  lemma ClosedQuoteTokens(keys: seq<string>, s: string, i: nat, k: nat)
    requires i < k < |s| && IsQuote(s[i]) && s[k] == s[i]
    requires LexBody(s[i + 1..k], s[i], false)
    ensures Scan(keys, s, i) ==
      Step([Token(Quote, [s[i]])] + (if i + 1 < k then [Token(Str, s[i + 1..k])] else []) + [Token(Quote, [s[i]])], k + 1)
  {
    ScanLiteralCloses(s, i + 1, k, s[i]);
  }

  /** An opening quote whose remaining content has no unescaped copy of it consumes the
      rest of the input: its quote token and optional string token are the last tokens. */
  lemma UnterminatedQuoteIsLast(keys: seq<string>, s: string, i: nat)
    requires i < |s| && IsQuote(s[i])
    requires LexBody(s[i + 1..], s[i], true)
    ensures TokensFrom(keys, s, i) ==
      [Token(Quote, [s[i]])] + (if i + 1 < |s| then [Token(Str, s[i + 1..])] else [])
  {
    ScanLiteralRunsToEnd(s, i + 1, s[i]);
    assert TokensFrom(keys, s, |s|) == [];
  }

  // ---------------------------------------------------------------------------
  // Rendering

  /** The CSS class of a styled token kind; whitespace and other text are not styled. */
  function SpanClass(kind: TokenType): Option<string> {
    match kind
    case Key => Some("token-key")
    case KeyInvalid => Some("token-key-invalid")
    case Str => Some("token-string")
    case Logic => Some("token-logic")
    case Punct => Some("token-punct")
    case Quote => Some("token-quote")
    case Ws => None
    case Other => None
  }

  function Render(t: Token): string {
    match SpanClass(t.kind)
    case None => t.value
    case Some(c) => "<span class=\"" + c + "\">" + t.value + "</span>"
  }

  /** `tokensToHtml`: the renderings of the tokens, in order. */
  function TokensToHtml(ts: seq<Token>): string
    decreases |ts|
  {
    if ts == [] then [] else Render(ts[0]) + TokensToHtml(ts[1..])
  }

  /** Each styled kind has its own class. */
  lemma SpanClassesDistinct(a: TokenType, b: TokenType)
    requires SpanClass(a).Some? && SpanClass(a) == SpanClass(b)
    ensures a == b
  {
  }

  /** Rendering is the in-order concatenation of the per-token renderings. */
  lemma {:induction false} HtmlOfConcat(a: seq<Token>, b: seq<Token>)
    ensures TokensToHtml(a + b) == TokensToHtml(a) + TokensToHtml(b)
    decreases |a|
  {
    if a != [] {
      assert (a + b)[0] == a[0];
      assert (a + b)[1..] == a[1..] + b;
      HtmlOfConcat(a[1..], b);
    } else {
      assert a + b == b;
    }
  }

  /** Tokens that are only whitespace and other text render as their own text. */
  lemma {:induction false} HtmlOfUnstyled(ts: seq<Token>)
    requires forall t :: t in ts ==> t.kind == Ws || t.kind == Other
    ensures TokensToHtml(ts) == Flatten(ts)
    decreases |ts|
  {
    if ts != [] {
      assert ts[0] in ts;
      HtmlOfUnstyled(ts[1..]);
    }
  }

  /** `highlightCode`: the rendering of the tokens of the input. */
  method HighlightCode(keys: seq<string>, code: string) returns (html: string)
    ensures html == TokensToHtml(Tokens(keys, code))
  {
    var tokens := Tokenize(keys, code);
    html := TokensToHtml(tokens);
  }
}
