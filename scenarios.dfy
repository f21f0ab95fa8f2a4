/** Worked examples of the validator and the lexer on particular inputs.
    Each input is described by a predicate that lists its characters; the lemmas are
    proved for any text of that shape and then applied to the literal. */
module Scenarios {
  import opened Text
  import opened Patterns
  import opened Validator
  import opened Lexer

  /** No parenthesis and no typographic or single quote. */
  predicate Simple(s: string) {
    forall j :: 0 <= j < |s| ==>
      s[j] != '(' && s[j] != ')' && !IsDoubleQuoteLike(s[j]) && !IsSingleQuoteLike(s[j])
  }

  /** A simple text that does not start with a space passes the parenthesis checks, is not
      blank and is left as it is by the normalisation. */
  lemma SimpleIsJudgedAsIs(s: string)
    requires Simple(s) && s != [] && !IsSpace(s[0])
    ensures Validate(s) == CheckQuery(s)
  {
    forall j | 0 <= j <= |s| ensures Depth(s[..j]) == 0 {
      DepthCounts(s[..j]);
      assert '(' !in s[..j] && ')' !in s[..j];
    }
    assert s[..|s|] == s;
    assert MapDoubleQuotes(s) == s;
    CollapseLeavesPlainText(s);
  }

  /** A matched text longer than a keyword is a block. */
  lemma LongTextIsBlock(t: string)
    requires |t| > 3
    ensures Classify(t) == VToken(BlockTok, t)
  {
    assert |Upper(t)| == |t|;
  }

  /** An upper-case `AND` is classified as the connector `AND`. */
  lemma AndIsConnector()
    ensures Classify("AND") == VToken(OpTok, "AND")
  {
    assert Upper("AND") == "AND" by {
      assert UpperChar('A') == 'A' && UpperChar('N') == 'N' && UpperChar('D') == 'D';
    }
  }

  /** An upper-case `OR` is classified as the connector `OR`. */
  lemma OrIsConnector()
    ensures Classify("OR") == VToken(OpTok, "OR")
  {
    assert Upper("OR") == "OR" by {
      assert UpperChar('O') == 'O' && UpperChar('R') == 'R';
    }
  }

  // ---------------------------------------------------------------------------
  // `"a" OR`: the expression ends with a connector.

  const TrailingOr: string := "\"a\" OR"

  predicate TrailingOrShape(s: string) {
    |s| == 6 && s[0] == '"' && s[1] == 'a' && s[2] == '"' && s[3] == ' ' && s[4] == 'O' && s[5] == 'R'
  }

  lemma TrailingOrDetect(s: string)
    requires TrailingOrShape(s)
    ensures Detect(s) == Blocks(Bare)
  {
    forall p | 0 <= p <= |s| ensures KeyedAt(s, p).None? {
    }
    HasMatchIff(s, Block(Keyed));
    RemoveNothing(s, Block(Keyed));
    assert LiteralEnd(s, 2, '"') == Some(3);
  }

  lemma TrailingOrAt(s: string)
    requires TrailingOrShape(s)
    ensures MatchAt(s, Query(Bare), 0) == Some(3) && MatchAt(s, Query(Bare), 3).None?
    ensures MatchAt(s, Query(Bare), 4) == Some(6) && MatchAt(s, Query(Bare), 6).None?
  {
    assert LiteralEnd(s, 2, '"') == Some(3);
    assert Upper(s[3..6])[0] == ' ' && Upper(s[3..5])[0] == ' ';
    assert s[4..6] == "OR";
    assert Min(4 + 3, |s|) == 6 && Min(4 + 2, |s|) == 6;
  }

  /** The scan of a block, a blank gap and a connector; the block kind is a parameter so
      that only the listed facts about the query pattern are used. */
  lemma TrailingOrScan(s: string, kind: BlockKind)
    requires |s| == 6 && s[4..6] == "OR" && Trim(s[3..4]) == [] && Classify(s[0..3]).kind == BlockTok
    requires MatchAt(s, Query(kind), 0) == Some(3) && MatchAt(s, Query(kind), 3).None?
    requires MatchAt(s, Query(kind), 4) == Some(6) && MatchAt(s, Query(kind), 6).None?
    ensures Lex(s, kind, 0) == Lexed([Classify(s[0..3]), VToken(OpTok, "OR")])
  {
    var q := Query(kind);
    NextMatchFinds(s, q, 0, 0, 3);
    NextMatchFinds(s, q, 3, 4, 6);
    NextMatchNone(s, q, 6);
    LexLastRound(s, kind, 6);
    LexRound(s, kind, 3, Span(4, 6));
    LexRound(s, kind, 0, Span(0, 3));
    OrIsConnector();
  }

  lemma TrailingOrPasses(s: string)
    requires TrailingOrShape(s)
    ensures Validate(s) == CheckQuery(s)
  {
    assert Simple(s);
    SimpleIsJudgedAsIs(s);
  }

  lemma TrailingOrShown(s: string)
    requires TrailingOrShape(s)
    ensures CheckQuery(s) == Some(TrailingConnector)
  {
    TrailingOrDetect(s);
    TrailingOrAt(s);
    assert Trim(s[3..4]) == [];
    assert s[4..6] == "OR";
    assert Upper(s[0..3])[0] == '"';
    TrailingOrScan(s, Bare);
    var ts := [Classify(s[0..3]), VToken(OpTok, "OR")];
    assert ts[1..][1..] == [];
    assert Sequencing(ts, false) == Sequencing(ts[1..], true);
    assert Sequencing(ts[1..], true) == Sequencing([], false);
  }

  /** `"a" OR` ends with a connector. */
  lemma TrailingOrRejected()
    ensures Validate(TrailingOr) == Some(TrailingConnector)
  {
    TrailingOrPasses(TrailingOr);
    TrailingOrShown(TrailingOr);
  }

  // ---------------------------------------------------------------------------
  // `antivirus OR ???`: no block at all.

  const NoBlock: string := "antivirus OR ???"

  predicate NoBlockShape(s: string) {
    |s| == 16 && s[0] == 'a' && s[1] == 'n' && s[2] == 't' && s[3] == 'i' && s[4] == 'v' && s[5] == 'i'
    && s[6] == 'r' && s[7] == 'u' && s[8] == 's' && s[9] == ' ' && s[10] == 'O' && s[11] == 'R'
    && s[12] == ' ' && s[13] == '?' && s[14] == '?' && s[15] == '?'
  }

  lemma NoBlockPasses(s: string)
    requires NoBlockShape(s)
    ensures Validate(s) == CheckQuery(s)
  {
    assert Simple(s);
    SimpleIsJudgedAsIs(s);
  }

  lemma NoBlockShown(s: string)
    requires NoBlockShape(s)
    ensures CheckQuery(s) == Some(Unrecognized(s))
  {
    NoQuoteNoBlock(s, Keyed);
    NoQuoteNoBlock(s, Bare);
    NoBlocksUnrecognized(s);
    NoBlockTrimmed(s);
  }

  lemma NoBlockTrimmed(s: string)
    requires NoBlockShape(s)
    ensures Trim(s) == s
  {
    assert SkipSpaces(s, 0) == 0 && TrailingSpacesStart(s, 0, |s|) == |s|;
    assert s[0..|s|] == s;
  }

  /** `antivirus OR ???` holds no block of either kind, so the whole text is reported as
      unrecognized. */
  lemma NoBlockRejected()
    ensures Validate(NoBlock) == Some(Unrecognized(NoBlock))
  {
    NoBlockPasses(NoBlock);
    NoBlockShown(NoBlock);
  }

  // ---------------------------------------------------------------------------
  // `AB="X") AND TI="Y"`: a closing parenthesis too many.

  const ExtraParen: string := "AB=\"X\") AND TI=\"Y\""

  /** The text starts with `AB="X")`. */
  predicate ExtraParenShape(s: string) {
    |s| >= 7 && s[0] == 'A' && s[1] == 'B' && s[2] == '=' && s[3] == '"' && s[4] == 'X' && s[5] == '"'
    && s[6] == ')'
  }

  /** Any text that starts with `AB="X")` closes a parenthesis it never opened. */
  lemma ExtraParenShown(s: string)
    requires ExtraParenShape(s)
    ensures Validate(s) == Some(ExtraClosingParen)
  {
    DepthCounts(s[..7]);
    assert '(' !in s[..7];
    assert s[..7][6] == ')';
  }

  /** A `)` with no `(` before it is reported first. */
  lemma ExtraParenRejected()
    ensures Validate(ExtraParen) == Some(ExtraClosingParen)
  {
    ExtraParenShown(ExtraParen);
  }

  // ---------------------------------------------------------------------------
  // `TI="A" AB="B"`: two blocks with no connector between them.

  const NoConnector: string := "TI=\"A\" AB=\"B\""

  predicate NoConnectorShape(s: string) {
    |s| == 13 && s[0] == 'T' && s[1] == 'I' && s[2] == '=' && s[3] == '"' && s[4] == 'A' && s[5] == '"'
    && s[6] == ' ' && s[7] == 'A' && s[8] == 'B' && s[9] == '=' && s[10] == '"' && s[11] == 'B' && s[12] == '"'
  }

  lemma NoConnectorBlocks(s: string)
    requires NoConnectorShape(s)
    ensures KeyedAt(s, 0) == Some(6) && KeyedAt(s, 7) == Some(13)
  {
    assert LiteralEnd(s, 4, '"') == Some(6);
    assert LiteralEnd(s, 11, '"') == Some(13);
    KeyedParseFound(s, 0, 2, 2, 3, 6);
    KeyedParseFound(s, 7, 2, 9, 10, 13);
  }

  lemma NoConnectorMatches(s: string, pat: Pattern)
    requires NoConnectorShape(s)
    requires pat == Block(Keyed) || pat == Query(Keyed)
    ensures NextMatch(s, pat, 0) == Some(Span(0, 6))
    ensures NextMatch(s, pat, 6) == Some(Span(7, 13))
    ensures NextMatch(s, pat, 13).None?
  {
    assert Upper(s[6..9])[0] == ' ' && Upper(s[6..8])[0] == ' ';
    assert MatchAt(s, pat, 6).None?;
    NoConnectorBlocks(s);
    NextMatchFinds(s, pat, 0, 0, 6);
    NextMatchFinds(s, pat, 6, 7, 13);
    NextMatchNone(s, pat, 13);
  }

  lemma NoConnectorDetect(s: string)
    requires NoConnectorShape(s)
    ensures Detect(s) == Blocks(Keyed)
  {
    var b := Block(Keyed);
    NoConnectorMatches(s, b);
    assert s[13..] == [];
    assert Gaps(s, b, 13) == [s[13..]];
    assert Gaps(s, b, 6) == [s[6..7]] + [[]];
    assert Gaps(s, b, 0) == [[]] + ([s[6..7]] + [[]]);
    assert s[6..7] == " ";
    var gs := [[], " ", []];
    assert Gaps(s, b, 0) == gs;
    assert Join(gs[1..][1..]) == [];
    NoQuoteNoBlock(" ", Bare);
  }

  lemma NoConnectorScan(s: string)
    requires NoConnectorShape(s)
    ensures Lex(s, Keyed, 0) == Lexed([VToken(BlockTok, s[0..6]), VToken(BlockTok, s[7..13])])
  {
    NoConnectorMatches(s, Query(Keyed));
    LexLastRound(s, Keyed, 13);
    assert Trim(s[6..7]) == [];
    LexRound(s, Keyed, 6, Span(7, 13));
    LexRound(s, Keyed, 0, Span(0, 6));
    assert |Upper(s[0..6])| == 6 && |Upper(s[7..13])| == 6;
    assert s[0..6] != "(" && s[0..6] != ")" && s[7..13] != "(" && s[7..13] != ")";
  }

  lemma NoConnectorPasses(s: string)
    requires NoConnectorShape(s)
    ensures Validate(s) == CheckQuery(s)
  {
    assert Simple(s);
    SimpleIsJudgedAsIs(s);
  }

  lemma NoConnectorShown(s: string)
    requires NoConnectorShape(s)
    ensures CheckQuery(s) == Some(MissingConnector)
  {
    NoConnectorDetect(s);
    NoConnectorScan(s);
    var ts := [VToken(BlockTok, s[0..6]), VToken(BlockTok, s[7..13])];
    assert Sequencing(ts, false) == Sequencing(ts[1..], true);
  }

  /** `TI="A" AB="B"` holds two keyed blocks with nothing but a space between them. */
  lemma NoConnectorRejected()
    ensures Validate(NoConnector) == Some(MissingConnector)
  {
    NoConnectorPasses(NoConnector);
    NoConnectorShown(NoConnector);
  }

  // ---------------------------------------------------------------------------
  // `TI="A" AND AB="B"`: a well-formed query.

  const Conjunction: string := "TI=\"A\" AND AB=\"B\""

  predicate ConjunctionShape(s: string) {
    |s| == 17 && s[0] == 'T' && s[1] == 'I' && s[2] == '=' && s[3] == '"' && s[4] == 'A' && s[5] == '"'
    && s[6] == ' ' && s[7] == 'A' && s[8] == 'N' && s[9] == 'D' && s[10] == ' '
    && s[11] == 'A' && s[12] == 'B' && s[13] == '=' && s[14] == '"' && s[15] == 'B' && s[16] == '"'
  }

  lemma ConjunctionBlocks(s: string)
    requires ConjunctionShape(s)
    ensures KeyedAt(s, 0) == Some(6) && KeyedAt(s, 11) == Some(17)
  {
    assert LiteralEnd(s, 4, '"') == Some(6);
    assert LiteralEnd(s, 15, '"') == Some(17);
    KeyedParseFound(s, 0, 2, 2, 3, 6);
    KeyedParseFound(s, 11, 2, 13, 14, 17);
  }

  /** `AND` at 7 is a whole word, and the letters after it do not start a block. */
  lemma ConjunctionBetween(s: string)
    requires ConjunctionShape(s)
    ensures KeyedAt(s, 6).None? && KeyedAt(s, 7).None? && KeyedAt(s, 8).None?
    ensures KeyedAt(s, 9).None? && KeyedAt(s, 10).None?
    ensures Keyword(s, 6).None? && Keyword(s, 7) == Some("AND") && Keyword(s, 10).None?
  {
    assert LetterRunEnd(s, 7) == 10;
    assert Upper(s[6..9])[0] == ' ' && Upper(s[6..8])[0] == ' ';
    assert Upper(s[10..13])[0] == ' ' && Upper(s[10..12])[0] == ' ';
    assert s[7..10] == "AND";
    assert Min(7 + 3, |s|) == 10;
    assert Upper("AND") == "AND";
  }

  lemma ConjunctionKeyedMatches(s: string)
    requires ConjunctionShape(s)
    ensures NextMatch(s, Block(Keyed), 0) == Some(Span(0, 6))
    ensures NextMatch(s, Block(Keyed), 6) == Some(Span(11, 17))
    ensures NextMatch(s, Block(Keyed), 17).None?
  {
    var b := Block(Keyed);
    ConjunctionBlocks(s);
    ConjunctionBetween(s);
    NextMatchFinds(s, b, 0, 0, 6);
    NextMatchFinds(s, b, 6, 11, 17);
    NextMatchNone(s, b, 17);
  }

  lemma ConjunctionQueryAt(s: string)
    requires ConjunctionShape(s)
    ensures MatchAt(s, Query(Keyed), 0) == Some(6) && MatchAt(s, Query(Keyed), 6).None?
    ensures MatchAt(s, Query(Keyed), 7) == Some(10) && MatchAt(s, Query(Keyed), 10).None?
    ensures MatchAt(s, Query(Keyed), 11) == Some(17) && MatchAt(s, Query(Keyed), 17).None?
  {
    ConjunctionBlocks(s);
    ConjunctionBetween(s);
    assert BlockAt(s, Keyed, 7).None?;
    assert |"AND"| == 3;
  }

  /** The matches of the query pattern follow from where it matches; the pattern is a
      parameter so that only these facts about it are used. */
  lemma ConjunctionQueryMatches(s: string, q: Pattern)
    requires |s| == 17
    requires MatchAt(s, q, 0) == Some(6) && MatchAt(s, q, 6).None?
    requires MatchAt(s, q, 7) == Some(10) && MatchAt(s, q, 10).None?
    requires MatchAt(s, q, 11) == Some(17) && MatchAt(s, q, 17).None?
    ensures NextMatch(s, q, 0) == Some(Span(0, 6))
    ensures NextMatch(s, q, 6) == Some(Span(7, 10))
    ensures NextMatch(s, q, 10) == Some(Span(11, 17))
    ensures NextMatch(s, q, 17).None?
  {
    NextMatchFinds(s, q, 0, 0, 6);
    NextMatchFinds(s, q, 6, 7, 10);
    NextMatchFinds(s, q, 10, 11, 17);
    NextMatchNone(s, q, 17);
  }

  lemma ConjunctionDetect(s: string)
    requires ConjunctionShape(s)
    ensures Detect(s) == Blocks(Keyed)
  {
    var b := Block(Keyed);
    ConjunctionKeyedMatches(s);
    assert s[17..] == [];
    assert Gaps(s, b, 17) == [s[17..]];
    assert Gaps(s, b, 6) == [s[6..11]] + [[]];
    assert Gaps(s, b, 0) == [[]] + ([s[6..11]] + [[]]);
    var gs := [[], s[6..11], []];
    assert Gaps(s, b, 0) == gs;
    assert Join(gs[1..][1..]) == [];
    assert Join(gs[1..]) == s[6..11] + Join(gs[1..][1..]);
    assert RemoveMatches(s, b) == s[6..11];
    NoQuoteNoBlock(s[6..11], Bare);
  }

  /** The scan of three matches separated by blank gaps; the block kind is a parameter
      so that only the listed facts about the query pattern are used. */
  lemma ConjunctionScanTail(s: string, kind: BlockKind)
    requires |s| == 17 && s[7..10] == "AND" && Trim(s[6..7]) == [] && Trim(s[10..11]) == []
    requires NextMatch(s, Query(kind), 6) == Some(Span(7, 10))
    requires NextMatch(s, Query(kind), 10) == Some(Span(11, 17))
    requires NextMatch(s, Query(kind), 17).None?
    ensures Lex(s, kind, 6) == Lexed([VToken(OpTok, "AND"), VToken(BlockTok, s[11..17])])
  {
    LexLastRound(s, kind, 17);
    LexRound(s, kind, 10, Span(11, 17));
    LexRound(s, kind, 6, Span(7, 10));
    LongTextIsBlock(s[11..17]);
    AndIsConnector();
  }

  lemma ConjunctionScan(s: string, kind: BlockKind)
    requires |s| == 17 && s[7..10] == "AND" && Trim(s[6..7]) == [] && Trim(s[10..11]) == []
    requires NextMatch(s, Query(kind), 0) == Some(Span(0, 6))
    requires NextMatch(s, Query(kind), 6) == Some(Span(7, 10))
    requires NextMatch(s, Query(kind), 10) == Some(Span(11, 17))
    requires NextMatch(s, Query(kind), 17).None?
    ensures Lex(s, kind, 0) == Lexed([VToken(BlockTok, s[0..6]), VToken(OpTok, "AND"), VToken(BlockTok, s[11..17])])
  {
    ConjunctionScanTail(s, kind);
    LexRound(s, kind, 0, Span(0, 6));
    LongTextIsBlock(s[0..6]);
  }

  lemma ConjunctionLexed(s: string)
    requires ConjunctionShape(s)
    ensures Lex(s, Keyed, 0) == Lexed([VToken(BlockTok, s[0..6]), VToken(OpTok, "AND"), VToken(BlockTok, s[11..17])])
  {
    ConjunctionQueryAt(s);
    ConjunctionQueryMatches(s, Query(Keyed));
    assert Trim(s[6..7]) == [] && Trim(s[10..11]) == [];
    assert s[7..10] == "AND";
    ConjunctionScan(s, Keyed);
  }

  lemma ConjunctionShown(s: string)
    requires ConjunctionShape(s)
    ensures CheckQuery(s) == None
  {
    ConjunctionDetect(s);
    ConjunctionLexed(s);
    var ts := [VToken(BlockTok, s[0..6]), VToken(OpTok, "AND"), VToken(BlockTok, s[11..17])];
    assert Sequencing(ts, false) == Sequencing(ts[1..], true);
    assert Sequencing(ts[1..], true) == Sequencing(ts[2..], false);
    assert Sequencing(ts[2..], false) == Sequencing([], true);
  }

  lemma ConjunctionPasses(s: string)
    requires ConjunctionShape(s)
    ensures Validate(s) == CheckQuery(s)
  {
    assert Simple(s);
    SimpleIsJudgedAsIs(s);
  }

  /** `TI="A" AND AB="B"` is accepted. */
  lemma ConjunctionAccepted()
    ensures Validate(Conjunction) == None
  {
    ConjunctionPasses(Conjunction);
    ConjunctionShown(Conjunction);
  }

  // ---------------------------------------------------------------------------
  // `TI="Kaspersky" AND NOT (AB="Avast" OR DP="2021")`: a query with a negation and a
  // parenthesised group.

  const Kaspersky: string := "TI=\"Kaspersky\"" + " AND NOT (" + "AB=\"Avast\"" + " OR " + "DP=\"2021\")"

  /** The characters of the key `TI`, its literal and the connector. */
  predicate KasperskyHead(s: string)
    requires |s| == 48
  {
    s[0] == 'T' && s[1] == 'I' && s[2] == '=' && s[3] == '"' && s[4] == 'K'
    && s[5] == 'a' && s[6] == 's' && s[7] == 'p' && s[8] == 'e' && s[9] == 'r' && s[10] == 's'
    && s[11] == 'k' && s[12] == 'y' && s[13] == '"' && s[14] == ' ' && s[15] == 'A' && s[16] == 'N'
  }

  /** The negation, the opening of the group and the key `AB` with its literal. */
  predicate KasperskyMiddle(s: string)
    requires |s| == 48
  {
    s[17] == 'D' && s[18] == ' ' && s[19] == 'N' && s[20] == 'O' && s[21] == 'T' && s[22] == ' '
    && s[23] == '(' && s[24] == 'A' && s[25] == 'B' && s[26] == '=' && s[27] == '"' && s[28] == 'A'
    && s[29] == 'v' && s[30] == 'a' && s[31] == 's' && s[32] == 't'
  }

  /** The connector `OR`, the key `DP` with its literal and the closing of the group. */
  predicate KasperskyTail(s: string)
    requires |s| == 48
  {
    s[33] == '"' && s[34] == ' '
    && s[35] == 'O' && s[36] == 'R' && s[37] == ' ' && s[38] == 'D' && s[39] == 'P' && s[40] == '='
    && s[41] == '"' && s[42] == '2' && s[43] == '0' && s[44] == '2' && s[45] == '1' && s[46] == '"'
    && s[47] == ')'
  }

  predicate KasperskyShape(s: string) {
    |s| == 48 && KasperskyHead(s) && KasperskyMiddle(s) && KasperskyTail(s)
  }

  /** Characters other than parentheses leave the running depth as it is. */
  lemma {:induction false} DepthAcrossPlain(s: string, a: nat, b: nat)
    requires a <= b <= |s|
    requires forall j :: a <= j < b ==> s[j] != '(' && s[j] != ')'
    ensures Depth(s[..b]) == Depth(s[..a])
    decreases b - a
  {
    if a < b {
      DepthAcrossPlain(s, a, b - 1);
      assert s[..b][..b - 1] == s[..b - 1];
    }
  }

  /** A text whose only parentheses are one `(` and a later `)` passes the parenthesis
      checks. */
  lemma OneGroupBalanced(s: string, o: nat, c: nat)
    requires o < c < |s| && s[o] == '(' && s[c] == ')'
    requires forall j :: 0 <= j < |s| && j != o && j != c ==> s[j] != '(' && s[j] != ')'
    ensures ParenCheck(s) == None
  {
    DepthAcrossPlain(s, 0, o);
    assert s[..o + 1][..o] == s[..o];
    DepthAcrossPlain(s, o + 1, c);
    assert s[..c + 1][..c] == s[..c];
    DepthAcrossPlain(s, c + 1, |s|);
    forall j | 0 <= j <= |s| ensures Depth(s[..j]) >= 0 {
      if j <= o {
        DepthAcrossPlain(s, 0, j);
      } else if j <= c {
        DepthAcrossPlain(s, o + 1, j);
      } else {
        DepthAcrossPlain(s, c + 1, j);
      }
    }
    assert s[..|s|] == s;
  }

  /** Text without typographic or single quotes is left as it is by the normalisation. */
  lemma PlainQuotesKept(s: string)
    requires forall j :: 0 <= j < |s| ==> !IsDoubleQuoteLike(s[j]) && !IsSingleQuoteLike(s[j])
    ensures Normalize(s) == s
  {
    assert MapDoubleQuotes(s) == s;
    CollapseLeavesPlainText(s);
  }

  lemma KasperskyOneGroup(s: string)
    requires KasperskyShape(s)
    ensures forall j :: 0 <= j < |s| && j != 23 && j != 47 ==> s[j] != '(' && s[j] != ')'
  {
  }

  lemma KasperskyPlainQuotes(s: string)
    requires KasperskyShape(s)
    ensures forall j :: 0 <= j < |s| ==> !IsDoubleQuoteLike(s[j]) && !IsSingleQuoteLike(s[j])
  {
  }

  lemma KasperskyPasses(s: string)
    requires KasperskyShape(s)
    ensures Validate(s) == CheckQuery(s)
  {
    KasperskyOneGroup(s);
    OneGroupBalanced(s, 23, 47);
    KasperskyPlainQuotes(s);
    PlainQuotesKept(s);
    assert !IsSpace(s[0]);
  }

  /** Content with no backslash and no `q` is a well-formed literal body. */
  lemma PlainEscapedBody(c: string, q: char)
    requires forall j :: 0 <= j < |c| ==> c[j] != '\\' && c[j] != q
    ensures EscapedBody(c, q)
  {
    if c != [] {
      PlainEscapedBody(c[1..], q);
    }
  }

  /** A literal from `j` whose content up to the quote at `k` is plain ends after `k`. */
  lemma PlainLiteralEnd(s: string, j: nat, k: nat)
    requires j <= k < |s| && s[k] == '"'
    requires forall i :: j <= i < k ==> s[i] != '\\' && s[i] != '"'
    ensures LiteralEnd(s, j, '"') == Some(k + 1)
  {
    PlainEscapedBody(s[j..k], '"');
    LiteralEndIff(s, j, '"', k);
  }

  lemma KasperskyBlocks(s: string)
    requires KasperskyShape(s)
    ensures KeyedAt(s, 0) == Some(14) && KeyedAt(s, 24) == Some(34) && KeyedAt(s, 38) == Some(47)
  {
    PlainLiteralEnd(s, 4, 13);
    PlainLiteralEnd(s, 28, 33);
    PlainLiteralEnd(s, 42, 46);
    KeyedParseFound(s, 0, 2, 2, 3, 14);
    KeyedParseFound(s, 24, 2, 26, 27, 34);
    KeyedParseFound(s, 38, 2, 40, 41, 47);
  }

  /** The words `AND`, `NOT` and `OR` are followed by no `=`, so no keyed block starts
      between the three blocks. */
  lemma KasperskyNoOtherKeyed(s: string)
    requires KasperskyShape(s)
    ensures forall i :: 14 <= i < 24 ==> KeyedAt(s, i).None?
    ensures forall i :: 34 <= i < 38 ==> KeyedAt(s, i).None?
    ensures KeyedAt(s, 47).None? && KeyedAt(s, 48).None?
  {
    LetterRunEndUnique(s, 15, 18);
    SkipSpacesUnique(s, 18, 19);
    LetterRunEndUnique(s, 19, 22);
    SkipSpacesUnique(s, 22, 23);
    LetterRunEndUnique(s, 35, 37);
    SkipSpacesUnique(s, 37, 38);
  }

  lemma KasperskyBlockMatches(s: string, pat: Pattern)
    requires |s| == 48
    requires MatchAt(s, pat, 0) == Some(14) && MatchAt(s, pat, 24) == Some(34) && MatchAt(s, pat, 38) == Some(47)
    requires forall i :: 14 <= i < 24 ==> MatchAt(s, pat, i).None?
    requires forall i :: 34 <= i < 38 ==> MatchAt(s, pat, i).None?
    requires MatchAt(s, pat, 47).None? && MatchAt(s, pat, 48).None?
    ensures NextMatch(s, pat, 0) == Some(Span(0, 14))
    ensures NextMatch(s, pat, 14) == Some(Span(24, 34))
    ensures NextMatch(s, pat, 34) == Some(Span(38, 47))
    ensures NextMatch(s, pat, 47).None?
  {
    NextMatchFinds(s, pat, 0, 0, 14);
    NextMatchFinds(s, pat, 14, 24, 34);
    NextMatchFinds(s, pat, 34, 38, 47);
    NextMatchNone(s, pat, 47);
  }

  /** Removing the keyed blocks leaves ` AND NOT (`, ` OR ` and `)`. */
  lemma KasperskyRemoved(s: string)
    requires KasperskyShape(s)
    ensures RemoveMatches(s, Block(Keyed)) == s[14..24] + (s[34..38] + s[47..])
  {
    var b := Block(Keyed);
    KasperskyBlocks(s);
    KasperskyNoOtherKeyed(s);
    KasperskyBlockMatches(s, b);
    var gs := [s[0..0], s[14..24], s[34..38], s[47..]];
    assert Gaps(s, b, 47) == gs[3..];
    assert Gaps(s, b, 34) == gs[2..];
    assert Gaps(s, b, 14) == gs[1..];
    assert Gaps(s, b, 0) == gs;
    assert Join(gs[3..]) == s[47..] by {
      assert gs[3..][1..] == [];
    }
    assert Join(gs[2..]) == s[34..38] + Join(gs[3..]) by {
      assert gs[2..][1..] == gs[3..];
    }
    assert Join(gs[1..]) == s[14..24] + Join(gs[2..]) by {
      assert gs[1..][1..] == gs[2..];
    }
  }

  predicate Quoteless(t: string) {
    forall j :: 0 <= j < |t| ==> !IsQuote(t[j])
  }

  lemma QuotelessConcat(a: string, b: string)
    requires Quoteless(a) && Quoteless(b)
    ensures Quoteless(a + b)
  {
    forall j | 0 <= j < |a + b| ensures !IsQuote((a + b)[j]) {
      if j < |a| {
        assert (a + b)[j] == a[j];
      } else {
        assert (a + b)[j] == b[j - |a|];
      }
    }
  }

  /** What is left once the keyed blocks are removed holds no quote. */
  lemma KasperskyRestQuoteless(s: string)
    requires KasperskyShape(s)
    ensures Quoteless(s[14..24] + (s[34..38] + s[47..]))
  {
    assert Quoteless(s[14..24]) && Quoteless(s[34..38]) && Quoteless(s[47..]);
    QuotelessConcat(s[34..38], s[47..]);
    QuotelessConcat(s[14..24], s[34..38] + s[47..]);
  }

  lemma KasperskyDetect(s: string)
    requires KasperskyShape(s)
    ensures Detect(s) == Blocks(Keyed)
  {
    KasperskyBlocks(s);
    HasMatchIff(s, Block(Keyed));
    assert MatchAt(s, Block(Keyed), 0).Some?;
    KasperskyRemoved(s);
    KasperskyRestQuoteless(s);
    NoQuoteNoBlock(s[14..24] + (s[34..38] + s[47..]), Bare);
  }

  lemma UpperWords()
    ensures Upper("AND") == "AND" && Upper("NOT") == "NOT" && Upper("OR") == "OR"
  {
    assert UpperChar('A') == 'A' && UpperChar('N') == 'N' && UpperChar('D') == 'D';
    assert UpperChar('O') == 'O' && UpperChar('T') == 'T' && UpperChar('R') == 'R';
  }

  /** The keywords of the query stand where the text spells them between spaces. */
  lemma KasperskyKeywords(s: string)
    requires KasperskyShape(s)
    ensures Keyword(s, 15) == Some("AND") && Keyword(s, 19) == Some("NOT") && Keyword(s, 35) == Some("OR")
  {
    UpperWords();
    assert s[15..18] == "AND" && s[19..22] == "NOT" && s[35..37] == "OR";
    KeywordIff(s, 15, "AND");
    KeywordIff(s, 19, "NOT");
    KeywordIff(s, 35, "OR");
  }

  /** No keyword starts at a space or a parenthesis. */
  lemma KasperskyNoKeyword(s: string, p: nat)
    requires KasperskyShape(s) && p + 3 <= |s| && (s[p] == ' ' || s[p] == '(' || s[p] == ')')
    ensures Keyword(s, p).None?
  {
    assert Upper(s[p..p + 3])[0] == s[p] && Upper(s[p..p + 2])[0] == s[p];
    assert Min(p + 3, |s|) == p + 3 && Min(p + 2, |s|) == p + 2;
  }

  lemma KasperskyQueryFront(s: string)
    requires KasperskyShape(s)
    ensures MatchAt(s, Query(Keyed), 0) == Some(14) && MatchAt(s, Query(Keyed), 14).None?
    ensures MatchAt(s, Query(Keyed), 15) == Some(18) && MatchAt(s, Query(Keyed), 18).None?
    ensures MatchAt(s, Query(Keyed), 19) == Some(22) && MatchAt(s, Query(Keyed), 22).None?
    ensures MatchAt(s, Query(Keyed), 23) == Some(24) && MatchAt(s, Query(Keyed), 24) == Some(34)
  {
    KasperskyBlocks(s);
    KasperskyNoOtherKeyed(s);
    KasperskyKeywords(s);
    KasperskyNoKeyword(s, 14);
    KasperskyNoKeyword(s, 18);
    KasperskyNoKeyword(s, 22);
    KasperskyNoKeyword(s, 23);
  }

  lemma KasperskyQueryBack(s: string)
    requires KasperskyShape(s)
    ensures MatchAt(s, Query(Keyed), 34).None? && MatchAt(s, Query(Keyed), 35) == Some(37)
    ensures MatchAt(s, Query(Keyed), 37).None? && MatchAt(s, Query(Keyed), 38) == Some(47)
    ensures MatchAt(s, Query(Keyed), 47) == Some(48) && MatchAt(s, Query(Keyed), 48).None?
  {
    KasperskyBlocks(s);
    KasperskyNoOtherKeyed(s);
    KasperskyKeywords(s);
    KasperskyNoKeyword(s, 34);
    KasperskyNoKeyword(s, 37);
    assert Upper(s[47..48])[0] == ')' && Min(47 + 3, |s|) == 48 && Min(47 + 2, |s|) == 48;
    assert Upper(s[48..48]) == [];
  }

  /** The first two matches of a query pattern, found one after the other; the pattern
      is a parameter so that only the listed facts about it are used. */
  lemma KasperskyMatchesFront(s: string, q: Pattern)
    requires |s| == 48
    requires MatchAt(s, q, 0) == Some(14) && MatchAt(s, q, 14).None? && MatchAt(s, q, 15) == Some(18)
    ensures NextMatch(s, q, 0) == Some(Span(0, 14)) && NextMatch(s, q, 14) == Some(Span(15, 18))
  {
    NextMatchFinds(s, q, 0, 0, 14);
    NextMatchFinds(s, q, 14, 15, 18);
  }

  /** The matches of the negation and the opening parenthesis. */
  lemma KasperskyMatchesNegation(s: string, q: Pattern)
    requires |s| == 48
    requires MatchAt(s, q, 18).None? && MatchAt(s, q, 19) == Some(22)
    requires MatchAt(s, q, 22).None? && MatchAt(s, q, 23) == Some(24)
    ensures NextMatch(s, q, 18) == Some(Span(19, 22)) && NextMatch(s, q, 22) == Some(Span(23, 24))
  {
    NextMatchFinds(s, q, 18, 19, 22);
    NextMatchFinds(s, q, 22, 23, 24);
  }

  /** The matches of a query pattern inside the group. */
  lemma KasperskyMatchesBack(s: string, q: Pattern)
    requires |s| == 48
    requires MatchAt(s, q, 24) == Some(34)
    requires MatchAt(s, q, 34).None? && MatchAt(s, q, 35) == Some(37)
    requires MatchAt(s, q, 37).None? && MatchAt(s, q, 38) == Some(47)
    requires MatchAt(s, q, 47) == Some(48) && MatchAt(s, q, 48).None?
    ensures NextMatch(s, q, 24) == Some(Span(24, 34)) && NextMatch(s, q, 34) == Some(Span(35, 37))
    ensures NextMatch(s, q, 37) == Some(Span(38, 47)) && NextMatch(s, q, 47) == Some(Span(47, 48))
    ensures NextMatch(s, q, 48).None?
  {
    NextMatchFinds(s, q, 24, 24, 34);
    NextMatchFinds(s, q, 34, 35, 37);
    NextMatchFinds(s, q, 37, 38, 47);
    NextMatchFinds(s, q, 47, 47, 48);
    NextMatchNone(s, q, 48);
  }

  /** One round of the scan whose gap is empty or blank: the match's label goes in front
      of the labels that follow. */
  lemma LexStep(s: string, kind: BlockKind, last: nat, m: Span, rest: seq<VToken>)
    requires last <= |s| && NextMatch(s, Query(kind), last) == Some(m)
    requires m.start == last || Trim(s[last..m.start]) == []
    requires Lex(s, kind, m.end) == Lexed(rest)
    ensures Lex(s, kind, last) == Lexed([Classify(s[m.start..m.end])] + rest)
  {
    LexRound(s, kind, last, m);
  }

  /** The scan from the last block on: every gap is blank. */
  lemma KasperskyScanClose(s: string, kind: BlockKind)
    requires |s| == 48 && Trim(s[37..38]) == []
    requires NextMatch(s, Query(kind), 37) == Some(Span(38, 47)) && NextMatch(s, Query(kind), 47) == Some(Span(47, 48))
    requires NextMatch(s, Query(kind), 48).None?
    ensures Lex(s, kind, 37) == Lexed([Classify(s[38..47])] + [Classify(s[47..48])])
  {
    LexLastRound(s, kind, 48);
    LexStep(s, kind, 47, Span(47, 48), []);
    LexStep(s, kind, 37, Span(38, 47), [Classify(s[47..48])]);
  }

  /** The scan from the block inside the group on. */
  lemma KasperskyScanGroup(s: string, kind: BlockKind, rest: seq<VToken>)
    requires |s| == 48 && Trim(s[34..35]) == [] && Lex(s, kind, 37) == Lexed(rest)
    requires NextMatch(s, Query(kind), 24) == Some(Span(24, 34)) && NextMatch(s, Query(kind), 34) == Some(Span(35, 37))
    ensures Lex(s, kind, 24) == Lexed([Classify(s[24..34])] + ([Classify(s[35..37])] + rest))
  {
    LexStep(s, kind, 34, Span(35, 37), rest);
    LexStep(s, kind, 24, Span(24, 34), [Classify(s[35..37])] + rest);
  }

  /** The scan from the negation on. */
  lemma KasperskyScanNegation(s: string, kind: BlockKind, rest: seq<VToken>)
    requires |s| == 48 && Trim(s[18..19]) == [] && Trim(s[22..23]) == [] && Lex(s, kind, 24) == Lexed(rest)
    requires NextMatch(s, Query(kind), 18) == Some(Span(19, 22)) && NextMatch(s, Query(kind), 22) == Some(Span(23, 24))
    ensures Lex(s, kind, 18) == Lexed([Classify(s[19..22])] + ([Classify(s[23..24])] + rest))
  {
    LexStep(s, kind, 22, Span(23, 24), rest);
    LexStep(s, kind, 18, Span(19, 22), [Classify(s[23..24])] + rest);
  }

  /** The scan from the start. */
  lemma KasperskyScanStart(s: string, kind: BlockKind, rest: seq<VToken>)
    requires |s| == 48 && Trim(s[14..15]) == [] && Lex(s, kind, 18) == Lexed(rest)
    requires NextMatch(s, Query(kind), 0) == Some(Span(0, 14)) && NextMatch(s, Query(kind), 14) == Some(Span(15, 18))
    ensures Lex(s, kind, 0) == Lexed([Classify(s[0..14])] + ([Classify(s[15..18])] + rest))
  {
    LexStep(s, kind, 14, Span(15, 18), rest);
    LexStep(s, kind, 0, Span(0, 14), [Classify(s[15..18])] + rest);
  }

  /** An upper-case `NOT` is classified as the negation. */
  lemma NotIsNegation()
    ensures Classify("NOT") == VToken(NotTok, "NOT")
  {
    UpperWords();
  }

  /** A parenthesis is classified as itself. */
  lemma ParenIsParen(t: string)
    requires t == "(" || t == ")"
    ensures Classify(t) == VToken(ParTok, t)
  {
    assert |Upper(t)| == 1;
  }

  /** The labels of the matches. */
  lemma KasperskyLabels(s: string)
    requires KasperskyShape(s)
    ensures [Classify(s[0..14])] + ([Classify(s[15..18])] + ([Classify(s[19..22])] + ([Classify(s[23..24])] +
      ([Classify(s[24..34])] + ([Classify(s[35..37])] + ([Classify(s[38..47])] + [Classify(s[47..48])])))))) ==
      [VToken(BlockTok, s[0..14]), VToken(OpTok, "AND"), VToken(NotTok, "NOT"), VToken(ParTok, "("),
       VToken(BlockTok, s[24..34]), VToken(OpTok, "OR"), VToken(BlockTok, s[38..47]), VToken(ParTok, ")")]
  {
    assert s[15..18] == "AND" && s[19..22] == "NOT" && s[35..37] == "OR";
    assert s[23..24] == "(" && s[47..48] == ")";
    AndIsConnector();
    NotIsNegation();
    OrIsConnector();
    ParenIsParen("(");
    ParenIsParen(")");
    LongTextIsBlock(s[0..14]);
    LongTextIsBlock(s[24..34]);
    LongTextIsBlock(s[38..47]);
  }

  lemma KasperskyLexed(s: string)
    requires KasperskyShape(s)
    ensures Lex(s, Keyed, 0) == Lexed([VToken(BlockTok, s[0..14]), VToken(OpTok, "AND"), VToken(NotTok, "NOT"),
      VToken(ParTok, "("), VToken(BlockTok, s[24..34]), VToken(OpTok, "OR"), VToken(BlockTok, s[38..47]), VToken(ParTok, ")")])
  {
    KasperskyQueryFront(s);
    KasperskyQueryBack(s);
    KasperskyMatchesFront(s, Query(Keyed));
    KasperskyMatchesNegation(s, Query(Keyed));
    KasperskyMatchesBack(s, Query(Keyed));
    assert Trim(s[14..15]) == [] && Trim(s[18..19]) == [] && Trim(s[22..23]) == [];
    assert Trim(s[34..35]) == [] && Trim(s[37..38]) == [];
    KasperskyScanClose(s, Keyed);
    var close := [Classify(s[38..47])] + [Classify(s[47..48])];
    KasperskyScanGroup(s, Keyed, close);
    var group := [Classify(s[24..34])] + ([Classify(s[35..37])] + close);
    KasperskyScanNegation(s, Keyed, group);
    var neg := [Classify(s[19..22])] + ([Classify(s[23..24])] + group);
    KasperskyScanStart(s, Keyed, neg);
    KasperskyLabels(s);
  }

  /** A block, a connector, a negation, an opened group holding a block, a connector and
      a block, and the closing of the group: the sequence is complete. */
  lemma GroupedNegationComplete(a: string, b: string, c: string)
    ensures Verdict([VToken(BlockTok, a), VToken(OpTok, "AND"), VToken(NotTok, "NOT"), VToken(ParTok, "("),
      VToken(BlockTok, b), VToken(OpTok, "OR"), VToken(BlockTok, c), VToken(ParTok, ")")]) == None
  {
    var ts := [VToken(BlockTok, a), VToken(OpTok, "AND"), VToken(NotTok, "NOT"), VToken(ParTok, "("),
      VToken(BlockTok, b), VToken(OpTok, "OR"), VToken(BlockTok, c), VToken(ParTok, ")")];
    assert Sequencing(ts[8..], true) == Done(true);
    assert Sequencing(ts[7..], true) == Sequencing(ts[8..], true);
    assert Sequencing(ts[6..], false) == Sequencing(ts[7..], true);
    assert Sequencing(ts[5..], true) == Sequencing(ts[6..], false);
    assert Sequencing(ts[4..], false) == Sequencing(ts[5..], true);
    assert Sequencing(ts[3..], false) == Sequencing(ts[4..], false);
    assert Sequencing(ts[2..], false) == Sequencing(ts[3..], false);
    assert Sequencing(ts[1..], true) == Sequencing(ts[2..], false);
    assert Sequencing(ts, false) == Sequencing(ts[1..], true);
  }

  lemma KasperskyShown(s: string)
    requires KasperskyShape(s)
    ensures CheckQuery(s) == None
  {
    KasperskyDetect(s);
    KasperskyLexed(s);
    GroupedNegationComplete(s[0..14], s[24..34], s[38..47]);
  }

  lemma KasperskyLength()
    ensures |Kaspersky| == 48
  {
  }

  lemma KasperskyHeadShaped()
    requires |Kaspersky| == 48
    ensures KasperskyHead(Kaspersky)
  {
  }

  lemma KasperskyMiddleShaped()
    requires |Kaspersky| == 48
    ensures KasperskyMiddle(Kaspersky)
  {
  }

  lemma KasperskyTailShaped()
    requires |Kaspersky| == 48
    ensures KasperskyTail(Kaspersky)
  {
  }

  lemma KasperskyShaped()
    ensures KasperskyShape(Kaspersky)
  {
    KasperskyLength();
    KasperskyHeadShaped();
    KasperskyMiddleShaped();
    KasperskyTailShaped();
  }

  /** `TI="Kaspersky" AND NOT (AB="Avast" OR DP="2021")` is accepted: the negation and the
      parentheses leave the expectation of an operator as it is. */
  lemma KasperskyAccepted()
    ensures Validate(Kaspersky) == None
  {
    KasperskyShaped();
    KasperskyPasses(Kaspersky);
    KasperskyShown(Kaspersky);
  }

  // ---------------------------------------------------------------------------
  // `TI="Kasper`: the lexer on an unterminated literal.

  const Unterminated: string := "TI=\"Kasper"

  predicate UnterminatedShape(s: string) {
    |s| == 10 && s[0] == 'T' && s[1] == 'I' && s[2] == '=' && s[3] == '"' && s[4] == 'K'
    && s[5] == 'a' && s[6] == 's' && s[7] == 'p' && s[8] == 'e' && s[9] == 'r'
  }

  /** Content with no backslash and no `q` is well-formed literal content. */
  lemma PlainBody(c: string, q: char, open: bool)
    requires forall j :: 0 <= j < |c| ==> c[j] != '\\' && c[j] != q
    ensures LexBody(c, q, open)
  {
    if c != [] {
      PlainBody(c[1..], q, open);
    }
  }

  lemma UnterminatedKey(s: string)
    requires UnterminatedShape(s)
    ensures Scan(DefaultKeys, s, 0) == Step([Token(Key, s[0..2])], 2)
  {
    assert Upper(s[0..3])[2] == '=' && Upper(s[0..2])[1] == 'I';
    assert Keyword(s, 0).None?;
    assert LetterRunEnd(s, 0) == 2;
    KeyLookaheadWitness(s, 2, 2, 3);
    assert s[0..2] == "TI";
  }

  lemma UnterminatedLiteral(s: string)
    requires UnterminatedShape(s)
    ensures TokensFrom(DefaultKeys, s, 3) == [Token(Quote, "\""), Token(Str, s[4..])]
  {
    PlainBody(s[4..], '"', true);
    UnterminatedQuoteIsLast(DefaultKeys, s, 3);
  }

  lemma UnterminatedShown(s: string)
    requires UnterminatedShape(s)
    ensures Tokens(DefaultKeys, s) ==
      [Token(Key, s[0..2]), Token(Punct, "="), Token(Quote, "\""), Token(Str, s[4..])]
  {
    UnterminatedKey(s);
    UnterminatedLiteral(s);
    var t1 := [Token(Key, s[0..2])];
    var t2 := [Token(Punct, "=")];
    var t3 := [Token(Quote, "\""), Token(Str, s[4..])];
    assert Scan(DefaultKeys, s, 2) == Step(t2, 3);
    assert TokensFrom(DefaultKeys, s, 2) == t2 + t3;
  }

  lemma UnterminatedSpells()
    ensures Flatten([Token(Key, "TI"), Token(Punct, "="), Token(Quote, "\""), Token(Str, "Kasper")]) == Unterminated
  {
    var t3 := [Token(Quote, "\""), Token(Str, "Kasper")];
    var t := [Token(Key, "TI"), Token(Punct, "=")] + t3;
    assert t[1..][1..] == t3 && t3[1..][1..] == [];
  }

  /** The key `TI`, `=`, the opening quote and the string `Kasper`, with no closing quote;
      the tokens spell the input. */
  lemma UnterminatedTokens()
    ensures Tokens(DefaultKeys, Unterminated) ==
      [Token(Key, "TI"), Token(Punct, "="), Token(Quote, "\""), Token(Str, "Kasper")]
    ensures Flatten(Tokens(DefaultKeys, Unterminated)) == Unterminated
  {
    UnterminatedShown(Unterminated);
    assert Unterminated[0..2] == "TI" && Unterminated[4..] == "Kasper";
    UnterminatedSpells();
  }
}
