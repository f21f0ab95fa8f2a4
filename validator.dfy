/** The query validator `validateExpression`: a pipeline of checks in which the first
    failing check decides the message. `Validate` is the specification and
    `ValidateExpression` follows the loops of `validateExpression`. */
module Validator {
  import opened Text
  import opened Patterns

  /** The messages, one per check; the unrecognized-text message carries its excerpt. */
  datatype Message =
    | ExtraClosingParen
    | MissingClosingParen
    | MixedBlocks
    | Unrecognized(excerpt: string)
    | MissingConnector
    | MisplacedConnector
    | MisplacedNot
    | TrailingConnector

  // ---------------------------------------------------------------------------
  // Parentheses

  function Delta(c: char): int {
    if c == '(' then 1 else if c == ')' then -1 else 0
  }

  /** The running depth after the whole of `s`. */
  function Depth(s: string): int
    decreases |s|
  {
    if s == [] then 0 else Depth(s[..|s| - 1]) + Delta(s[|s| - 1])
  }

  /** The depth is the number of `(` less the number of `)`. */
  lemma {:induction false} DepthCounts(s: string)
    ensures Depth(s) == multiset(s)['('] as int - multiset(s)[')'] as int
    decreases |s|
  {
    if s != [] {
      var init := s[..|s| - 1];
      DepthCounts(init);
      assert s == init + [s[|s| - 1]];
      assert multiset(s) == multiset(init) + multiset{s[|s| - 1]};
    }
  }

  /** Some prefix of `s` has more `)` than `(`. */
  predicate ClosesTooEarly(s: string) {
    exists j :: 0 <= j <= |s| && Depth(s[..j]) < 0
  }

  // ---------------------------------------------------------------------------
  // Quote normalisation

  /** The typographic double quotes that are turned into `"`. */
  predicate IsDoubleQuoteLike(c: char) {
    c == '\U{201C}' || c == '\U{201D}' || c == '\U{00AB}' || c == '\U{00BB}' || c == '\U{201E}'
    || c == '\U{201F}' || c == '\U{275D}' || c == '\U{275E}' || c == '\U{FF02}'
  }

  /** The single quotes whose runs are turned into one `'`; the ASCII `'` is one of them. */
  predicate IsSingleQuoteLike(c: char) {
    c == '\U{2018}' || c == '\U{2019}' || c == '\U{201A}' || c == '\U{201B}' || c == '\U{275B}'
    || c == '\U{275C}' || c == '\''
  }

  function StraightChar(c: char): char {
    if IsDoubleQuoteLike(c) then '"' else c
  }

  /** The first replacement: every typographic double quote becomes `"`, one for one. */
  function MapDoubleQuotes(s: string): string {
    seq(|s|, j requires 0 <= j < |s| => StraightChar(s[j]))
  }

  /** End of the maximal run of single quotes starting at `j`. */
  function QuoteRunEnd(s: string, j: nat): (k: nat)
    requires j <= |s|
    ensures j <= k <= |s|
    ensures forall i :: j <= i < k ==> IsSingleQuoteLike(s[i])
    ensures k == |s| || !IsSingleQuoteLike(s[k])
    decreases |s| - j
  {
    if j < |s| && IsSingleQuoteLike(s[j]) then QuoteRunEnd(s, j + 1) else j
  }

  /** A run of quotes from `j` that is maximal on the right ends where `QuoteRunEnd` stops. */
  lemma QuoteRunEndUnique(s: string, j: nat, k: nat)
    requires j <= k <= |s| && (forall i :: j <= i < k ==> IsSingleQuoteLike(s[i]))
    requires k == |s| || !IsSingleQuoteLike(s[k])
    ensures QuoteRunEnd(s, j) == k
  {
  }

  /** Length of the run of single quotes at the start of `s`. */
  function QuoteRun(s: string): (n: nat)
    ensures n <= |s|
  {
    QuoteRunEnd(s, 0)
  }

  /** The second replacement: every maximal run of single quotes becomes one `'`. */
  function CollapseSingleQuotes(s: string): string
    decreases |s|
  {
    if s == [] then []
    else if IsSingleQuoteLike(s[0]) then "'" + CollapseSingleQuotes(s[QuoteRun(s)..])
    else [s[0]] + CollapseSingleQuotes(s[1..])
  }

  function Normalize(s: string): string {
    CollapseSingleQuotes(MapDoubleQuotes(s))
  }

  predicate NoSingleQuotes(s: string) {
    forall j :: 0 <= j < |s| ==> !IsSingleQuoteLike(s[j])
  }

  /** Text without single-quote characters passes the collapse of single-quote runs unchanged. */
  lemma {:induction false} CollapseLeavesPlainText(s: string)
    requires NoSingleQuotes(s)
    ensures CollapseSingleQuotes(s) == s
    decreases |s|
  {
    if s != [] {
      CollapseLeavesPlainText(s[1..]);
    }
  }

  lemma QuoteRunExtends(x: string, z: string)
    requires QuoteRun(x) < |x|
    ensures QuoteRun(x + z) == QuoteRun(x)
  {
    var k := QuoteRun(x);
    forall i | 0 <= i <= k ensures (x + z)[i] == x[i] {
    }
    QuoteRunEndUnique(x + z, 0, k);
  }

  lemma RunOfQuotes(r: string, y: string)
    requires forall j :: 0 <= j < |r| ==> IsSingleQuoteLike(r[j])
    requires y == [] || !IsSingleQuoteLike(y[0])
    ensures QuoteRun(r + y) == |r|
  {
    forall i | 0 <= i < |r| ensures (r + y)[i] == r[i] {
    }
    assert |r| < |r + y| ==> (r + y)[|r|] == y[0];
    QuoteRunEndUnique(r + y, 0, |r|);
  }

  /** A run of quotes at the very start, followed by a character that is not a quote. */
  lemma CollapseWholeRun(r: string, y: string)
    requires r != [] && forall j :: 0 <= j < |r| ==> IsSingleQuoteLike(r[j])
    requires y == [] || !IsSingleQuoteLike(y[0])
    ensures CollapseSingleQuotes(r + y) == "'" + CollapseSingleQuotes(y)
  {
    RunOfQuotes(r, y);
    assert (r + y)[|r|..] == y;
  }

  /** Text that ends in something other than a quote collapses separately from what
      follows it. */
  lemma {:induction false} CollapseSplits(x: string, w: string)
    requires x == [] || !IsSingleQuoteLike(x[|x| - 1])
    ensures CollapseSingleQuotes(x + w) == CollapseSingleQuotes(x) + CollapseSingleQuotes(w)
    decreases |x|
  {
    if x == [] {
      assert x + w == w;
    } else {
      var k := if IsSingleQuoteLike(x[0]) then QuoteRun(x) else 1;
      CollapseSplits(x[k..], w);
      CollapseSplitsStep(x, w, k);
    }
  }

  /** The step of `CollapseSplits`: the first run of quotes, or the first other character. */
  lemma CollapseSplitsStep(x: string, w: string, k: nat)
    requires x != [] && !IsSingleQuoteLike(x[|x| - 1])
    requires k == if IsSingleQuoteLike(x[0]) then QuoteRun(x) else 1
    requires CollapseSingleQuotes(x[k..] + w) == CollapseSingleQuotes(x[k..]) + CollapseSingleQuotes(w)
    ensures CollapseSingleQuotes(x + w) == CollapseSingleQuotes(x) + CollapseSingleQuotes(w)
  {
    var head := if IsSingleQuoteLike(x[0]) then "'" else [x[0]];
    if IsSingleQuoteLike(x[0]) {
      QuoteRunExtends(x, w);
    }
    assert (x + w)[k..] == x[k..] + w;
    assert CollapseSingleQuotes(x + w) == head + CollapseSingleQuotes(x[k..] + w);
    assert CollapseSingleQuotes(x) == head + CollapseSingleQuotes(x[k..]);
    Regroup(head, CollapseSingleQuotes(x[k..]), CollapseSingleQuotes(w));
  }

  /** A maximal run of single quotes between the texts `x` and `y` becomes exactly one
      `'`, whatever `x` and `y` hold. */
  lemma CollapseRun(x: string, r: string, y: string)
    requires r != [] && forall j :: 0 <= j < |r| ==> IsSingleQuoteLike(r[j])
    requires x == [] || !IsSingleQuoteLike(x[|x| - 1])
    requires y == [] || !IsSingleQuoteLike(y[0])
    ensures CollapseSingleQuotes(x + r + y) == CollapseSingleQuotes(x) + "'" + CollapseSingleQuotes(y)
  {
    CollapseSplits(x, r + y);
    CollapseWholeRun(r, y);
    Regroup(x, r, y);
    Regroup(CollapseSingleQuotes(x), "'", CollapseSingleQuotes(y));
  }

  lemma Regroup(a: string, b: string, c: string)
    ensures a + (b + c) == a + b + c
  {
  }

  /** Normalised text holds no typographic double quote, and its only single quote is
      the ASCII `'`, never twice in a row. */
  predicate Normalized(s: string) {
    forall j {:trigger s[j]} :: 0 <= j < |s| ==>
      !IsDoubleQuoteLike(s[j])
      && (IsSingleQuoteLike(s[j]) ==> s[j] == '\'' && (j + 1 == |s| || !IsSingleQuoteLike(s[j + 1])))
  }

  predicate NoDoubleQuoteLike(s: string) {
    forall j :: 0 <= j < |s| ==> !IsDoubleQuoteLike(s[j])
  }

  lemma NormalizedCons(c: char, t: string)
    requires Normalized(t) && !IsDoubleQuoteLike(c)
    requires IsSingleQuoteLike(c) ==> c == '\'' && (t == [] || !IsSingleQuoteLike(t[0]))
    ensures Normalized([c] + t)
  {
    var u := [c] + t;
    forall j | 0 <= j < |u|
      ensures !IsDoubleQuoteLike(u[j])
      ensures IsSingleQuoteLike(u[j]) ==> u[j] == '\'' && (j + 1 == |u| || !IsSingleQuoteLike(u[j + 1]))
    {
      if j + 1 < |u| {
        assert u[j + 1] == t[j];
      }
      if j > 0 {
        assert u[j] == t[j - 1];
      }
    }
  }

  lemma NormalizedTail(s: string)
    requires s != [] && Normalized(s)
    ensures Normalized(s[1..])
  {
    var t := s[1..];
    forall j | 0 <= j < |t|
      ensures !IsDoubleQuoteLike(t[j])
      ensures IsSingleQuoteLike(t[j]) ==> t[j] == '\'' && (j + 1 == |t| || !IsSingleQuoteLike(t[j + 1]))
    {
      assert t[j] == s[j + 1];
      if j + 1 < |t| {
        assert t[j + 1] == s[j + 2];
      }
    }
  }

  lemma {:induction false} CollapseNormalizes(s: string)
    requires NoDoubleQuoteLike(s)
    ensures Normalized(CollapseSingleQuotes(s))
    ensures CollapseSingleQuotes(s) != [] && IsSingleQuoteLike(CollapseSingleQuotes(s)[0]) ==>
              s != [] && IsSingleQuoteLike(s[0])
    decreases |s|
  {
    if s != [] {
      if IsSingleQuoteLike(s[0]) {
        var rest := s[QuoteRun(s)..];
        CollapseNormalizes(rest);
        NormalizedCons('\'', CollapseSingleQuotes(rest));
      } else {
        CollapseNormalizes(s[1..]);
        NormalizedCons(s[0], CollapseSingleQuotes(s[1..]));
      }
    }
  }

  /** Normalised text is left as it is by a second collapse. */
  lemma {:induction false} CollapseKeepsNormalized(s: string)
    requires Normalized(s)
    ensures CollapseSingleQuotes(s) == s
    decreases |s|
  {
    if s != [] {
      NormalizedTail(s);
      CollapseKeepsNormalized(s[1..]);
      if IsSingleQuoteLike(s[0]) {
        assert QuoteRun(s) == 1;
      }
    }
  }

  /** What the quote normalisation guarantees, and that it is idempotent. */
  lemma NormalizeSettles(s: string)
    ensures Normalized(Normalize(s))
    ensures Normalize(Normalize(s)) == Normalize(s)
  {
    var m := MapDoubleQuotes(s);
    CollapseNormalizes(m);
    var n := Normalize(s);
    assert MapDoubleQuotes(n) == n;
    CollapseKeepsNormalized(n);
  }

  // ---------------------------------------------------------------------------
  // Block detection

  /** Which blocks the normalised text holds: keyed and bare blocks together, neither,
      or one kind, which the query pattern then looks for. */
  datatype Detection = Mixed | NoBlocks | Blocks(kind: BlockKind)

  function Detect(s: string): Detection {
    var hasType2 := HasMatch(s, Block(Keyed));
    var hasType1 := HasMatch(RemoveMatches(s, Block(Keyed)), Block(Bare));
    if hasType1 && hasType2 then Mixed
    else if !hasType1 && !hasType2 then NoBlocks
    else Blocks(if hasType2 then Keyed else Bare)
  }

  /** The query pattern looks for the one kind of block the text holds. */
  lemma DetectsTheKindPresent(s: string, kind: BlockKind)
    requires Detect(s) == Blocks(kind)
    ensures HasMatch(s, Block(kind))
    ensures kind == Bare ==> !HasMatch(s, Block(Keyed))
  {
    if kind == Bare {
      RemoveNothing(s, Block(Keyed));
    }
  }

  // ---------------------------------------------------------------------------
  // The query scan

  datatype VKind = BlockTok | OpTok | NotTok | ParTok

  datatype VToken = VToken(kind: VKind, value: string)

  /** How the scan labels a matched text: `AND`/`OR` (any case) as a connector, `NOT` as
      a negation, a parenthesis as itself, and anything else as a block. */
  function Classify(val: string): (r: VToken)
    ensures r.kind == OpTok ==> r.value == "AND" || r.value == "OR"
    ensures r.kind == NotTok ==> r.value == "NOT"
    ensures r.kind == ParTok || r.kind == BlockTok ==> r.value == val
    ensures |r.value| == |val|
  {
    if Upper(val) == "AND" || Upper(val) == "OR" then VToken(OpTok, Upper(val))
    else if Upper(val) == "NOT" then VToken(NotTok, Upper(val))
    else if val == "(" || val == ")" then VToken(ParTok, val)
    else VToken(BlockTok, val)
  }

  datatype LexResult = Lexed(tokens: seq<VToken>) | Stray(text: string)

  function PushFront(ts: seq<VToken>, r: LexResult): LexResult {
    match r
    case Lexed(us) => Lexed(ts + us)
    case Stray(t) => Stray(t)
  }

  /** The `exec` loop from `last`: stops at the first non-blank text outside the
      matches, otherwise labels every match. */
  function Lex(s: string, kind: BlockKind, last: nat): (r: LexResult)
    requires last <= |s|
    ensures r.Stray? ==> r.text != [] && !IsSpace(r.text[0]) && !IsSpace(r.text[|r.text| - 1])
    decreases |s| - last
  {
    match NextMatch(s, Query(kind), last)
    case None =>
      if last < |s| && Trim(s[last..]) != [] then Stray(Trim(s[last..])) else Lexed([])
    case Some(m) =>
      if m.start > last && Trim(s[last..m.start]) != [] then Stray(Trim(s[last..m.start]))
      else PushFront([Classify(s[m.start..m.end])], Lex(s, kind, m.end))
  }

  /** One round of the scan: a match after a gap. */
  lemma LexRound(s: string, kind: BlockKind, last: nat, m: Span)
    requires last <= |s| && NextMatch(s, Query(kind), last) == Some(m)
    ensures m.start > last && Trim(s[last..m.start]) != [] ==> Lex(s, kind, last) == Stray(Trim(s[last..m.start]))
    ensures !(m.start > last && Trim(s[last..m.start]) != []) ==>
      Lex(s, kind, last) == PushFront([Classify(s[m.start..m.end])], Lex(s, kind, m.end))
  {
  }

  /** The last round of the scan: no further match. */
  lemma LexLastRound(s: string, kind: BlockKind, last: nat)
    requires last <= |s| && NextMatch(s, Query(kind), last).None?
    ensures Lex(s, kind, last) == if last < |s| && Trim(s[last..]) != [] then Stray(Trim(s[last..])) else Lexed([])
  {
  }

  lemma PushFrontTwice(ts: seq<VToken>, us: seq<VToken>, r: LexResult)
    ensures PushFront(ts + us, r) == PushFront(ts, PushFront(us, r))
  {
  }

  /** The invariant of the `exec` loop is kept by a round that adds a token... */
  lemma ScanAdvances(s: string, kind: BlockKind, last: nat, m: Span, tokens: seq<VToken>)
    requires last <= |s| && NextMatch(s, Query(kind), last) == Some(m)
    requires !(m.start > last && Trim(s[last..m.start]) != [])
    requires PushFront(tokens, Lex(s, kind, last)) == Lex(s, kind, 0)
    ensures PushFront(tokens + [Classify(s[m.start..m.end])], Lex(s, kind, m.end)) == Lex(s, kind, 0)
  {
    LexRound(s, kind, last, m);
    PushFrontTwice(tokens, [Classify(s[m.start..m.end])], Lex(s, kind, m.end));
  }

  /** ...and leads to the scan's result when a round meets stray text... */
  lemma ScanStopsAtStray(s: string, kind: BlockKind, last: nat, m: Span, tokens: seq<VToken>)
    requires last <= |s| && NextMatch(s, Query(kind), last) == Some(m)
    requires m.start > last && Trim(s[last..m.start]) != []
    requires PushFront(tokens, Lex(s, kind, last)) == Lex(s, kind, 0)
    ensures Lex(s, kind, 0) == Stray(Trim(s[last..m.start]))
  {
    LexRound(s, kind, last, m);
  }

  /** ...or when no match is left. */
  lemma ScanEnds(s: string, kind: BlockKind, last: nat, tokens: seq<VToken>)
    requires last <= |s| && NextMatch(s, Query(kind), last).None?
    requires PushFront(tokens, Lex(s, kind, last)) == Lex(s, kind, 0)
    ensures Lex(s, kind, 0) == if last < |s| && Trim(s[last..]) != [] then Stray(Trim(s[last..])) else Lexed(tokens)
  {
    LexLastRound(s, kind, last);
  }

  function ClassifyAll(texts: seq<string>): seq<VToken> {
    seq(|texts|, k requires 0 <= k < |texts| => Classify(texts[k]))
  }

  /** The pieces of text between the matches are all blank. */
  predicate AllBlank(gs: seq<string>) {
    forall k :: 0 <= k < |gs| ==> IsBlank(gs[k])
  }

  /** The gap that holds the first non-blank text is `gs[k]`. */
  predicate FirstStray(gs: seq<string>, k: nat) {
    k < |gs| && !IsBlank(gs[k]) && forall k' :: 0 <= k' < k ==> IsBlank(gs[k'])
  }

  /** The scan succeeds exactly when all text outside the matches is blank, and then
      labels every matched text in order; otherwise it reports the first non-blank
      piece, trimmed. */
  lemma {:induction false} LexGaps(s: string, kind: BlockKind, last: nat)
    requires last <= |s|
    ensures var gs := Gaps(s, Query(kind), last);
      match Lex(s, kind, last)
      case Lexed(ts) => AllBlank(gs) && ts == ClassifyAll(Texts(s, Matches(s, Query(kind), last)))
      case Stray(t) => exists k: nat :: FirstStray(gs, k) && t == Trim(gs[k])
    decreases |s| - last
  {
    var pat := Query(kind);
    match NextMatch(s, pat, last)
    case None =>
      assert Gaps(s, pat, last) == [s[last..]];
      assert Matches(s, pat, last) == [];
      assert FirstStray([s[last..]], 0) <==> !IsBlank(s[last..]);
    case Some(m) =>
      LexGaps(s, kind, m.end);
      var g := s[last..m.start];
      assert Gaps(s, pat, last) == [g] + Gaps(s, pat, m.end);
      assert Matches(s, pat, last) == [m] + Matches(s, pat, m.end);
      TextsCons(s, m, Matches(s, pat, m.end));
      LexGapsStep(g, Gaps(s, pat, m.end), s[m.start..m.end], Texts(s, Matches(s, pat, m.end)),
                  Lex(s, kind, m.end), Lex(s, kind, last));
  }

  /** The pure step of `LexGaps`: one gap and one match in front of the rest. */
  lemma LexGapsStep(g: string, gs: seq<string>, t: string, texts: seq<string>, rest: LexResult, r: LexResult)
    requires r == (if g != [] && Trim(g) != [] then Stray(Trim(g)) else PushFront([Classify(t)], rest))
    requires match rest
      case Lexed(ts) => AllBlank(gs) && ts == ClassifyAll(texts)
      case Stray(u) => exists k: nat :: FirstStray(gs, k) && u == Trim(gs[k])
    ensures match r
      case Lexed(ts) => AllBlank([g] + gs) && ts == ClassifyAll([t] + texts)
      case Stray(u) => exists k: nat :: FirstStray([g] + gs, k) && u == Trim(([g] + gs)[k])
  {
    if g != [] && Trim(g) != [] {
      assert FirstStray([g] + gs, 0);
    } else if rest.Lexed? {
      BlankGapThenTokens(g, gs, t, texts);
    } else {
      var k: nat :| FirstStray(gs, k) && rest.text == Trim(gs[k]);
      BlankGapThenStray(g, gs, k);
    }
  }

  lemma BlankGapThenTokens(g: string, gs: seq<string>, t: string, texts: seq<string>)
    requires IsBlank(g) && AllBlank(gs)
    ensures AllBlank([g] + gs) && ClassifyAll([t] + texts) == [Classify(t)] + ClassifyAll(texts)
  {
  }

  lemma BlankGapThenStray(g: string, gs: seq<string>, k: nat)
    requires IsBlank(g) && FirstStray(gs, k)
    ensures FirstStray([g] + gs, k + 1) && ([g] + gs)[k + 1] == gs[k]
  {
  }

  /** A block that the query pattern matches is labelled a block: its text is neither a
      keyword nor a parenthesis. */
  lemma BlockTextIsBlock(s: string, kind: BlockKind, p: nat, e: nat)
    requires p <= |s| && BlockAt(s, kind, p) == Some(e)
    ensures Classify(s[p..e]).kind == BlockTok
  {
    var v := s[p..e];
    if kind == Bare {
      assert IsQuote(v[0]);
      assert Upper(v)[0] == v[0];
    } else {
      var r := LetterRunEnd(s, p);
      var a := SkipSpaces(s, r);
      assert p + 2 <= r <= a < e;
      assert v[r - p] == s[r];
      assert !IsLetter(Upper(v)[r - p]) by {
        UpperOnlyFoldsCase(v, r - p);
      }
    }
  }

  /** Every character of a matched keyword is an ASCII letter. */
  lemma KeywordLetters(s: string, q: nat, i: nat)
    requires q <= i <= |s| && Keyword(s, q).Some? && i < q + |Keyword(s, q).value|
    ensures IsLetter(s[i])
  {
    var w := Keyword(s, q).value;
    var v := s[q..q + |w|];
    assert Upper(v)[i - q] == w[i - q];
    assert 'A' <= w[i - q] <= 'Z';
    UpperOnlyFoldsCase(v, i - q);
    assert v[i - q] == s[i];
  }

  /** A keyword or a parenthesis matched before `p0` ends at or before `p0` when a block
      starts at `p0`: a block never starts inside a keyword. */
  lemma NonBlockEndsBefore(s: string, kind: BlockKind, q: nat, p0: nat)
    requires q < p0 <= |s| && BlockAt(s, kind, p0).Some?
    requires MatchAt(s, Query(kind), q).Some? && BlockAt(s, kind, q).None?
    ensures MatchAt(s, Query(kind), q).value <= p0
  {
    if Keyword(s, q).Some? && p0 < q + |Keyword(s, q).value| {
      KeywordLetters(s, q, p0);
      KeywordLetters(s, q, p0 - 1);
    }
  }

  /** When the text holds a block, a successful scan from before it finds a block: the
      keywords and parentheses matched on the way never swallow its start. */
  lemma {:induction false} ScanReachesBlock(s: string, kind: BlockKind, last: nat, p0: nat)
    requires last <= p0 <= |s| && BlockAt(s, kind, p0).Some?
    requires forall p :: last <= p < p0 ==> BlockAt(s, kind, p).None?
    requires Lex(s, kind, last).Lexed?
    ensures exists k :: 0 <= k < |Lex(s, kind, last).tokens| && Lex(s, kind, last).tokens[k].kind == BlockTok
    decreases |s| - last
  {
    var pat := Query(kind);
    assert MatchAt(s, pat, p0).Some?;
    var m := NextMatch(s, pat, last).value;
    var tok := Classify(s[m.start..m.end]);
    assert Lex(s, kind, last) == PushFront([tok], Lex(s, kind, m.end));
    if m.start == p0 {
      BlockTextIsBlock(s, kind, p0, m.end);
      assert Lex(s, kind, last).tokens[0] == tok;
    } else {
      NonBlockEndsBefore(s, kind, m.start, p0);
      ScanReachesBlock(s, kind, m.end, p0);
      var k :| 0 <= k < |Lex(s, kind, m.end).tokens| && Lex(s, kind, m.end).tokens[k].kind == BlockTok;
      assert Lex(s, kind, last).tokens[k + 1] == Lex(s, kind, m.end).tokens[k];
    }
  }

  /** When the text holds a block of the kind looked for, a successful scan yields at
      least one block token. */
  lemma ScanFindsBlock(s: string, kind: BlockKind)
    requires HasMatch(s, Block(kind)) && Lex(s, kind, 0).Lexed?
    ensures exists k :: 0 <= k < |Lex(s, kind, 0).tokens| && Lex(s, kind, 0).tokens[k].kind == BlockTok
  {
    var p0 := NextMatch(s, Block(kind), 0).value.start;
    assert BlockAt(s, kind, p0).Some?;
    forall p | 0 <= p < p0 ensures BlockAt(s, kind, p).None? {
      assert MatchAt(s, Block(kind), p).None?;
    }
    ScanReachesBlock(s, kind, 0, p0);
  }

  // ---------------------------------------------------------------------------
  // Sequencing

  /** How the `expectOp` loop ends: with a message, or with the final flag. */
  datatype Flow = Fail(message: Message) | Done(expectOp: bool)

  /** The `expectOp` loop over `ts`, starting from the flag `expectOp`. */
  function Sequencing(ts: seq<VToken>, expectOp: bool): (r: Flow)
    ensures r.Fail? ==> r.message == MissingConnector || r.message == MisplacedConnector || r.message == MisplacedNot
    decreases |ts|
  {
    if ts == [] then Done(expectOp)
    else match ts[0].kind
      case BlockTok => if expectOp then Fail(MissingConnector) else Sequencing(ts[1..], true)
      case OpTok => if !expectOp then Fail(MisplacedConnector) else Sequencing(ts[1..], false)
      case NotTok => if expectOp then Fail(MisplacedNot) else Sequencing(ts[1..], expectOp)
      case ParTok => Sequencing(ts[1..], expectOp)
  }

  /** An operator is expected after `ts` exactly when the last block or connector in it is
      a block; negations and parentheses leave the expectation alone. */
  function ExpectsOperator(ts: seq<VToken>): bool
    decreases |ts|
  {
    if ts == [] then false
    else if ts[|ts| - 1].kind == BlockTok then true
    else if ts[|ts| - 1].kind == OpTok then false
    else ExpectsOperator(ts[..|ts| - 1])
  }

  /** Token `t` is out of place after `before`. */
  predicate Misplaced(before: seq<VToken>, t: VToken) {
    match t.kind
    case BlockTok => ExpectsOperator(before)
    case OpTok => !ExpectsOperator(before)
    case NotTok => ExpectsOperator(before)
    case ParTok => false
  }

  function MessageFor(kind: VKind): Message {
    match kind
    case BlockTok => MissingConnector
    case OpTok => MisplacedConnector
    case NotTok => MisplacedNot
    case ParTok => MissingConnector
  }

  /** After a prefix with no misplaced token, the loop carries exactly the flag
      `ExpectsOperator` of that prefix. */
  lemma {:induction false} SequencingAfter(ts: seq<VToken>, k: nat)
    requires k <= |ts|
    requires forall j :: 0 <= j < k ==> !Misplaced(ts[..j], ts[j])
    ensures Sequencing(ts, false) == Sequencing(ts[k..], ExpectsOperator(ts[..k]))
    decreases k
  {
    if k == 0 {
      assert ts[0..] == ts;
    } else {
      SequencingAfter(ts, k - 1);
      var before := ts[..k - 1];
      assert !Misplaced(before, ts[k - 1]);
      assert ts[k - 1..][1..] == ts[k..];
      assert ts[..k][..k - 1] == before;
    }
  }

  /** The loop ends without a message exactly when no token is out of place, and then its
      flag says whether an operator is expected after the whole list; otherwise it
      reports the first misplaced token with that token's message. */
  lemma SequencingIff(ts: seq<VToken>)
    ensures Sequencing(ts, false).Done? <==> forall j :: 0 <= j < |ts| ==> !Misplaced(ts[..j], ts[j])
    ensures Sequencing(ts, false).Done? ==> Sequencing(ts, false).expectOp == ExpectsOperator(ts)
    ensures Sequencing(ts, false).Fail? ==>
      exists j :: 0 <= j < |ts| && Misplaced(ts[..j], ts[j])
        && (forall i :: 0 <= i < j ==> !Misplaced(ts[..i], ts[i]))
        && Sequencing(ts, false).message == MessageFor(ts[j].kind)
  {
    var j := FirstMisplaced(ts, 0);
    SequencingAfter(ts, j);
    if j < |ts| {
      assert ts[j..][0] == ts[j];
    } else {
      assert ts[..|ts|] == ts;
    }
  }

  /** The first misplaced token at or after `from`, or `|ts|`. */
  function FirstMisplaced(ts: seq<VToken>, from: nat): (j: nat)
    requires from <= |ts|
    requires forall i :: 0 <= i < from ==> !Misplaced(ts[..i], ts[i])
    ensures from <= j <= |ts|
    ensures forall i :: 0 <= i < j ==> !Misplaced(ts[..i], ts[i])
    ensures j < |ts| ==> Misplaced(ts[..j], ts[j])
    decreases |ts| - from
  {
    if from == |ts| || Misplaced(ts[..from], ts[from]) then from else FirstMisplaced(ts, from + 1)
  }

  /** The end check after the loop. */
  function Verdict(ts: seq<VToken>): (r: Option<Message>)
    ensures r.Some? ==> r.value in {MissingConnector, MisplacedConnector, MisplacedNot, TrailingConnector}
  {
    match Sequencing(ts, false)
    case Fail(m) => Some(m)
    case Done(expectOp) => if !expectOp && |ts| > 1 then Some(TrailingConnector) else None
  }

  /** A list that ends in `NOT` and holds more than one token is always rejected: by the
      negation check when an operator is expected, by the end check otherwise. */
  lemma DanglingNotRejected(ts: seq<VToken>)
    requires |ts| > 1 && ts[|ts| - 1].kind == NotTok
    ensures Verdict(ts).Some?
  {
    SequencingIff(ts);
    if Sequencing(ts, false).Done? {
      var init := ts[..|ts| - 1];
      assert !Misplaced(init, ts[|ts| - 1]);
      assert ts[..|ts| - 1] == init;
    }
  }

  // ---------------------------------------------------------------------------
  // The pipeline

  /** The parenthesis checks, which look at the raw input. */
  function ParenCheck(expr: string): (r: Option<Message>)
    ensures r.Some? ==> r.value == ExtraClosingParen || r.value == MissingClosingParen
  {
    if ClosesTooEarly(expr) then Some(ExtraClosingParen)
    else if Depth(expr) > 0 then Some(MissingClosingParen)
    else None
  }

  /** Detection, the scan and sequencing, on the normalised text. None of them speaks of
      parentheses. */
  function CheckQuery(s: string): (r: Option<Message>)
    ensures r.Some? ==> r.value != ExtraClosingParen && r.value != MissingClosingParen
  {
    match Detect(s)
    case Mixed => Some(MixedBlocks)
    case NoBlocks => Some(Unrecognized(Trim(s)))
    case Blocks(kind) =>
      match Lex(s, kind, 0)
      case Stray(t) => Some(Unrecognized(t))
      case Lexed(ts) => Verdict(ts)
  }

  /** `validateExpression`: `None` stands for `null`. */
  function Validate(expr: string): Option<Message> {
    if ParenCheck(expr).Some? then ParenCheck(expr)
    else if Trim(expr) == [] then None
    else CheckQuery(Normalize(expr))
  }

  /** The depth loop. */
  method CheckParentheses(expr: string) returns (r: Option<Message>)
    ensures r == ParenCheck(expr)
  {
    var depth := 0;
    for i := 0 to |expr|
      invariant depth == Depth(expr[..i])
      invariant forall j :: 0 <= j <= i ==> Depth(expr[..j]) >= 0
    {
      assert expr[..i + 1][..i] == expr[..i];
      var ch := expr[i];
      if ch == '(' {
        depth := depth + 1;
      }
      if ch == ')' {
        depth := depth - 1;
        if depth < 0 {
          return Some(ExtraClosingParen);
        }
      }
    }
    assert expr[..|expr|] == expr;
    if depth > 0 {
      return Some(MissingClosingParen);
    }
    return None;
  }

  /** The `exec` loop over the query pattern. */
  method ScanQuery(s: string, kind: BlockKind) returns (r: LexResult)
    ensures r == Lex(s, kind, 0)
  {
    var tokens: seq<VToken> := [];
    var lastIndex := 0;
    var m := NextMatch(s, Query(kind), lastIndex);
    while m.Some?
      invariant lastIndex <= |s| && m == NextMatch(s, Query(kind), lastIndex)
      invariant PushFront(tokens, Lex(s, kind, lastIndex)) == Lex(s, kind, 0)
      decreases |s| - lastIndex
    {
      var sp := m.value;
      if sp.start > lastIndex {
        var unknown := Trim(s[lastIndex..sp.start]);
        if unknown != [] {
          ScanStopsAtStray(s, kind, lastIndex, sp, tokens);
          return Stray(unknown);
        }
      }
      var token := Classify(s[sp.start..sp.end]);
      ScanAdvances(s, kind, lastIndex, sp, tokens);
      tokens := tokens + [token];
      lastIndex := sp.end;
      m := NextMatch(s, Query(kind), lastIndex);
    }
    ScanEnds(s, kind, lastIndex, tokens);
    if lastIndex < |s| && Trim(s[lastIndex..]) != [] {
      return Stray(Trim(s[lastIndex..]));
    }
    return Lexed(tokens);
  }

  /** The `expectOp` loop and the end check. */
  method CheckSequence(tokens: seq<VToken>) returns (r: Option<Message>)
    ensures r == Verdict(tokens)
  {
    var expectOp := false;
    for i := 0 to |tokens|
      invariant Sequencing(tokens, false) == Sequencing(tokens[i..], expectOp)
    {
      assert tokens[i..][1..] == tokens[i + 1..];
      var t := tokens[i];
      if t.kind == BlockTok {
        if expectOp {
          return Some(MissingConnector);
        }
        expectOp := true;
      } else if t.kind == OpTok {
        if !expectOp {
          return Some(MisplacedConnector);
        }
        expectOp := false;
      } else if t.kind == NotTok {
        if expectOp {
          return Some(MisplacedNot);
        }
      }
    }
    assert tokens[|tokens|..] == [];
    if !expectOp && |tokens| > 1 {
      return Some(TrailingConnector);
    }
    return None;
  }

  /** `validateExpression`, check by check. */
  method ValidateExpression(expr: string) returns (r: Option<Message>)
    ensures r == Validate(expr)
  {
    r := CheckParentheses(expr);
    if r.Some? {
      return;
    }
    if Trim(expr) == [] {
      return None;
    }
    var s := Normalize(expr);
    var hasType2 := HasMatch(s, Block(Keyed));
    var hasType1 := HasMatch(RemoveMatches(s, Block(Keyed)), Block(Bare));
    if hasType1 && hasType2 {
      return Some(MixedBlocks);
    }
    if !hasType1 && !hasType2 {
      return Some(Unrecognized(Trim(s)));
    }
    var kind := if hasType2 then Keyed else Bare;
    assert Detect(s) == Blocks(kind);
    var scanned := ScanQuery(s, kind);
    match scanned
    case Stray(t) =>
      return Some(Unrecognized(t));
    case Lexed(tokens) =>
      r := CheckSequence(tokens);
  }

  // ---------------------------------------------------------------------------
  // What the checks promise

  /** A prefix with more `)` than `(` gives the extra-closing message, whatever else the
      input holds, and nothing else gives it. */
  lemma ExtraClosingWins(expr: string)
    ensures Validate(expr) == Some(ExtraClosingParen) <==> ClosesTooEarly(expr)
  {
  }

  /** Otherwise more `(` than `)` overall gives the missing-closing message, and nothing
      else gives it. */
  lemma MissingClosing(expr: string)
    ensures Validate(expr) == Some(MissingClosingParen) <==>
      !ClosesTooEarly(expr) && multiset(expr)['('] > multiset(expr)[')']
  {
    DepthCounts(expr);
  }

  /** Every later check sees balanced parentheses. */
  lemma LaterChecksSeeBalance(expr: string)
    requires Validate(expr) != Some(ExtraClosingParen) && Validate(expr) != Some(MissingClosingParen)
    ensures multiset(expr)['('] == multiset(expr)[')']
    ensures forall j :: 0 <= j <= |expr| ==> multiset(expr[..j])['('] >= multiset(expr[..j])[')']
  {
    DepthCounts(expr);
    assert expr[..|expr|] == expr;
    assert Depth(expr[..|expr|]) >= 0;
    forall j | 0 <= j <= |expr| ensures multiset(expr[..j])['('] >= multiset(expr[..j])[')'] {
      DepthCounts(expr[..j]);
    }
  }

  /** Blank input is valid. */
  lemma {:induction false} BlankIsValid(expr: string)
    requires IsBlank(expr)
    ensures Validate(expr) == None
  {
    forall j | 0 <= j <= |expr| ensures Depth(expr[..j]) == 0 {
      BlankDepth(expr[..j]);
    }
    assert expr[..|expr|] == expr;
  }

  lemma {:induction false} BlankDepth(s: string)
    requires IsBlank(s)
    ensures Depth(s) == 0
    decreases |s|
  {
    if s != [] {
      BlankDepth(s[..|s| - 1]);
    }
  }

  /** Past the parenthesis checks, a text that is not blank is judged on its normalised
      form; in particular every excerpt comes from the normalised text. */
  lemma JudgedOnNormalized(expr: string)
    requires !ClosesTooEarly(expr) && Depth(expr) <= 0 && !IsBlank(expr)
    ensures Validate(expr) == CheckQuery(Normalize(expr))
  {
  }

  /** Neither kind of block gives the unrecognized message with the whole trimmed
      normalised text, which is never empty. */
  lemma NoBlocksUnrecognized(s: string)
    requires !IsBlank(s) && !HasMatch(s, Block(Keyed)) && !HasMatch(s, Block(Bare))
    ensures CheckQuery(s) == Some(Unrecognized(Trim(s))) && Trim(s) != []
  {
    RemoveNothing(s, Block(Keyed));
  }

  /** A keyed block together with a bare literal left after removing the keyed blocks gives
      the mixing message. */
  lemma MixedBlocksRejected(s: string)
    requires HasMatch(s, Block(Keyed)) && HasMatch(RemoveMatches(s, Block(Keyed)), Block(Bare))
    ensures CheckQuery(s) == Some(MixedBlocks)
  {
  }

  /** A non-blank piece of text outside the matches gives the unrecognized message with the
      first such piece, trimmed, which is never empty. */
  lemma StrayTextRejected(s: string, kind: BlockKind)
    requires Detect(s) == Blocks(kind)
    requires !AllBlank(Gaps(s, Query(kind), 0))
    ensures exists k: nat ::
      FirstStray(Gaps(s, Query(kind), 0), k) &&
      CheckQuery(s) == Some(Unrecognized(Trim(Gaps(s, Query(kind), 0)[k]))) &&
      Trim(Gaps(s, Query(kind), 0)[k]) != []
  {
    LexGaps(s, kind, 0);
  }

  /** A query that passes every check holds a block, and its tokens pass the sequencing
      check and end expecting an operator, unless there is only one token. */
  lemma AcceptedQuery(s: string)
    requires CheckQuery(s) == None
    ensures Detect(s).Blocks? && Lex(s, Detect(s).kind, 0).Lexed?
    ensures var ts := Lex(s, Detect(s).kind, 0).tokens;
      (exists k :: 0 <= k < |ts| && ts[k].kind == BlockTok)
      && (forall j :: 0 <= j < |ts| ==> !Misplaced(ts[..j], ts[j]))
      && (ExpectsOperator(ts) || |ts| <= 1)
  {
    var kind := Detect(s).kind;
    DetectsTheKindPresent(s, kind);
    ScanFindsBlock(s, kind);
    SequencingIff(Lex(s, kind, 0).tokens);
  }

  /** A query whose tokens end in `NOT` is never accepted. */
  lemma DanglingNotNeverAccepted(s: string)
    requires Detect(s).Blocks? && Lex(s, Detect(s).kind, 0).Lexed?
    requires var ts := Lex(s, Detect(s).kind, 0).tokens; ts != [] && ts[|ts| - 1].kind == NotTok
    ensures CheckQuery(s).Some?
  {
    var kind := Detect(s).kind;
    var ts := Lex(s, kind, 0).tokens;
    assert CheckQuery(s) == Verdict(ts);
    DetectsTheKindPresent(s, kind);
    ScanFindsBlock(s, kind);
    var k :| 0 <= k < |ts| && ts[k].kind == BlockTok;
    assert |ts| > 1;
    DanglingNotRejected(ts);
  }
}
