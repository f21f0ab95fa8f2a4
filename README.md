# Query editor: highlighting lexer and expression validator

This project models the core of a search-query editor. The editor is a text area where
users type boolean queries such as `TI="Kaspersky" AND (AB="antivirus" OR NOT DP='2020')`.
Its core has two parts.

- **The highlighting lexer** (`tokenize`, `tokensToHtml`, `highlightCode`). It splits
  any input into typed tokens: whitespace, punctuation, quotes, string contents, the
  logic keywords `AND`/`OR`/`NOT`, field keys (valid or not), and other text. It then
  renders the tokens as HTML spans. It never fails.
- **The validator** (`validateExpression`). It runs a pipeline of checks on the raw
  text and returns the first message, or none when the query is well formed.
  - The parenthesis balance is checked first.
  - Blank input is accepted.
  - Typographic quotes are normalised.
  - The text must hold only one kind of block: bare literals (`"x"`) or keyed blocks
    (`TI="x"`).
  - Everything outside the matched blocks, keywords and parentheses must be blank.
  - Blocks, connectors and negations must alternate correctly.

Modules:

- `Text` (text.dfy) holds the JavaScript character classes the code relies on: `\s`,
  `\w`, `[A-Za-z]` and the line terminators. It also holds `trim`, ASCII upper-casing,
  and the word-bounded `AND`/`NOT`/`OR` recogniser shared by both parts.
- `Lexer` (lexer.dfy) is the tokenizer and the renderer.
  - `Tokenize` and its helper methods follow the loops of `tokenize`.
  - Each is proved equal to the specification function `Tokens`.
  - Lemmas about `Tokens` state what the tokens say about the input.
- `Patterns` (patterns.dfy) contains the three regular expressions of the validator,
  written out as scanners, and their global match, `exec` and `replace` behaviour.
  - A bare literal block is `(['"])(?:\\.|(?!\1)[^\\])*?\1`.
  - A keyed block is `\b[A-Za-z]{2,5}\s*=\s*` followed by a literal.
  - The query pattern is either block pattern, then `\bAND\b|\bOR\b|\bNOT\b|[()]`, with
    the `gi` flags.
- `Validator` (validator.dfy) is the pipeline.
  - `Validate` is its specification.
  - `ValidateExpression` follows the code's depth loop, `exec` loop and `expectOp`
    loop, through the methods `CheckParentheses`, `ScanQuery` and `CheckSequence`.

The key list `VALID_KEYS` is a parameter `keys` of every lexer operation.
`Lexer.DefaultKeys` is the list the editor uses. The validator's messages are the
constructors of `Validator.Message`; the Russian texts themselves are left out. `None`
stands for `null`.

The no-block check (validateExpression.ts:31-33) runs before the gap scan, so
`antivirus OR ???`, which holds no block at all, is reported with the whole trimmed text
as its excerpt (`Validator.NoBlocksUnrecognized`, worked out on that input by
`Scenarios.NoBlockRejected`).

The module `Scenarios` (scenarios.dfy) works the pipeline and the lexer through a few
concrete inputs. Each input is described by a predicate that lists its characters; the
lemmas hold for every text of that shape and are then applied to the literal.

## Model

| member | source | states |
|---|---|---|
| Text.Trim | src/utils/validateExpression.ts:13 | The result is empty exactly when the input is all `\s` characters; otherwise it neither starts nor ends with one, and it is the slice of the input between two blank margins |
| Text.SkipSpaces | src/components/HighlightedTextarea.tsx:17 | The scan stops at the end of the maximal run of whitespace: everything it skipped is whitespace, and the next character is not |
| Text.LetterRunEnd | src/components/HighlightedTextarea.tsx:84 | The scan stops at the end of the maximal run of ASCII letters |
| Text.Keyword | src/components/HighlightedTextarea.tsx:61-80 | A recognised keyword is `AND`, `NOT` or `OR`, equals the upper-cased input at that place, and has no word character on either side |
| Text.KeywordIff | src/components/HighlightedTextarea.tsx:61-80 | Each keyword is recognised at a position exactly when the text there upper-cases to it and is word-bounded on both sides; the order in which the source tries `AND`/`NOT` and then `OR` therefore does not matter |
| Lexer.PlainRunEnd | src/components/HighlightedTextarea.tsx:101-108 | The fallback scan stops at the end of the maximal run of characters that are neither whitespace nor `(`, `)`, `=` or a quote |
| Lexer.KeyLookahead | src/components/HighlightedTextarea.tsx:86-91 | The `tempI` lookahead after a letter run: optional whitespace, `=`, optional whitespace and a quote follow. `Lexer.KeyLookaheadIff` states it in terms of the characters |
| Lexer.Scan | src/components/HighlightedTextarea.tsx:13-114 | One iteration of the main loop, branch by branch, as a value: it consumes at least one character and stays inside the input |
| Lexer.Tokens | src/components/HighlightedTextarea.tsx:8-118 | `tokenize` as a function: the iterations of `Lexer.Scan` from the start to the end of the input. `Lexer.TokenShapes`, `Lexer.TokensNonEmpty` and `Lexer.LosslessUpToKeywordCase` state what its tokens say about the input |
| Lexer.KeyLookaheadIff | src/components/HighlightedTextarea.tsx:86-91 | A letter run is a key exactly when optional whitespace, `=`, optional whitespace and a quote follow it |
| Lexer.ScanLiteral | src/components/HighlightedTextarea.tsx:37-49 | The inner literal scan moves forward and stays inside the input; it can stop without moving only at the end of the input, and only unclosed |
| Lexer.ScanLiteralShape | src/components/HighlightedTextarea.tsx:37-49 | The gathered content is the raw text after the opening quote, made of backslash pairs and characters other than the quote (a lone backslash only as the very last character); a closed literal has its quote right after the content, and an unclosed one runs to the end of the input |
| Lexer.ScanLiteralCloses | src/components/HighlightedTextarea.tsx:37-49 | Well-formed content followed by the opening quote closes exactly there: an escaped quote never closes a literal |
| Lexer.ScanLiteralRunsToEnd | src/components/HighlightedTextarea.tsx:37-49 | Content with no unescaped copy of the opening quote is gathered up to the end of the input, unclosed |
| Lexer.ReadLiteral | src/components/HighlightedTextarea.tsx:33-49 | The loop returns the content, the index after the literal and the closing flag that the literal scan specifies |
| Lexer.ReadSpaces | src/components/HighlightedTextarea.tsx:17 | The whitespace loop ends where the maximal run of whitespace ends |
| Lexer.ReadLetters | src/components/HighlightedTextarea.tsx:84 | The letter loop ends where the maximal run of letters ends |
| Lexer.ReadPlain | src/components/HighlightedTextarea.tsx:102-108 | The fallback loop ends where the maximal run of plain characters ends |
| Lexer.FollowedByAssignment | src/components/HighlightedTextarea.tsx:86-91 | The `tempI` lookahead answers exactly the key lookahead |
| Lexer.ScanStep | src/components/HighlightedTextarea.tsx:13-114 | One iteration of the main loop pushes the tokens and reaches the index that the specification step gives, branch by branch; the single-character fallback (lines 111-113) is proved unreachable |
| Lexer.Tokenize | src/components/HighlightedTextarea.tsx:8-118 | `tokenize` returns exactly the specification tokens of the input |
| Lexer.TokenShapes | src/components/HighlightedTextarea.tsx:8-118 | The tokens tile the input. Each token is non-empty and, at its own offset, has its kind's shape: whitespace is a maximal blank run; a key or an invalid key is a maximal letter run followed by `=` and a quote, and it is in the key list exactly for `Key`; a logic keyword is word-bounded; a string token is well-formed content after a quote; other text is a maximal letter run with no lookahead, or a maximal plain run |
| Lexer.TokensNonEmpty | src/components/HighlightedTextarea.tsx:18-110 | No token has an empty value |
| Lexer.LosslessUpToKeywordCase | src/components/HighlightedTextarea.tsx:8-118 | Concatenating the token values gives a text of the input's length that equals the input up to case. The two are equal exactly when every logic keyword was typed upper-case |
| Lexer.ClosedQuoteTokens | src/components/HighlightedTextarea.tsx:32-57 | A quote, well-formed content and the same quote give the quote token, a string token when the content is non-empty, and the closing quote token, and scanning resumes after the closing quote |
| Lexer.UnterminatedQuoteIsLast | src/components/HighlightedTextarea.tsx:32-57 | A quote with no unescaped partner gives the last tokens of the input: the quote and, if any, the rest as one string token |
| Lexer.SpanClassesDistinct | src/components/HighlightedTextarea.tsx:124-141 | The six styled kinds have six different CSS classes |
| Lexer.HtmlOfConcat | src/components/HighlightedTextarea.tsx:121-144 | The HTML of a token list is the HTML of its parts, concatenated in order |
| Lexer.Render | src/components/HighlightedTextarea.tsx:124-141 | One token as HTML: a span with its kind's class around its value, or the bare value for whitespace and other text (`Lexer.HtmlOfUnstyled`) |
| Lexer.TokensToHtml | src/components/HighlightedTextarea.tsx:121-144 | `tokensToHtml`: the rendered tokens joined in order (`Lexer.HtmlOfConcat`) |
| Lexer.HtmlOfUnstyled | src/components/HighlightedTextarea.tsx:137-140 | Whitespace and other text render as their own text, without markup |
| Lexer.HighlightCode | src/components/HighlightedTextarea.tsx:146-149 | `highlightCode` renders the tokens of its input |
| Patterns.LiteralEndIff | src/utils/validateExpression.ts:22 | The lazy literal match opened at a quote ends right after position `k` exactly when `k` holds the same quote and the text between is a sequence of backslash pairs (not escaping a line terminator) and characters other than a backslash and that quote; the first such `k` wins |
| Patterns.LiteralEnd | src/utils/validateExpression.ts:22 | The lazy literal scan after an opening quote: a match, when there is one, is non-empty and ends inside the input |
| Patterns.BareAt | src/utils/validateExpression.ts:22 | A bare literal starting at a position ends after it and inside the input |
| Patterns.KeyedAt | src/utils/validateExpression.ts:19 | A keyed block starting at a position ends after it and inside the input |
| Patterns.MatchAt | src/utils/validateExpression.ts:43 | A match of any of the three patterns at a position is non-empty and ends inside the input, so the `exec` loop always moves forward |
| Patterns.KeyedAtIff | src/utils/validateExpression.ts:19 | A keyed block matches at `p` exactly when `p` is word-bounded on the left and the text there is a maximal run of 2 to 5 ASCII letters, optional whitespace, `=`, optional whitespace and a literal |
| Patterns.QueryAlternatives | src/utils/validateExpression.ts:43 | A query match is a block, or a keyword at a place where no block starts, or a parenthesis |
| Patterns.NextMatch | src/utils/validateExpression.ts:46 | `exec` finds the leftmost match at or after the last index: no match starts before it; it is non-empty; when there is none, nothing matches anywhere after the index |
| Patterns.NextMatchFinds | src/utils/validateExpression.ts:46 | `exec` from an index returns the first position at or after it where the pattern matches, with that match's end |
| Patterns.NextMatchNone | src/utils/validateExpression.ts:46 | `exec` returns `null` when the pattern matches nowhere from the index to the end |
| Patterns.NoQuoteNoBlock | src/utils/validateExpression.ts:19-22 | Every block of either kind holds a quote, so text without quotes holds no block |
| Patterns.HasMatchIff | src/utils/validateExpression.ts:20-26 | A global `match` is non-empty exactly when the pattern matches at some position |
| Patterns.GapsAndMatchesTile | src/utils/validateExpression.ts:23 | The matches of a global pattern and the texts between them alternate and tile the input exactly; one more gap than matches |
| Patterns.RemoveNothing | src/utils/validateExpression.ts:23 | Removing the matches of a pattern that matches nowhere leaves the text unchanged |
| Patterns.RemoveMatches | src/utils/validateExpression.ts:23 | `replace(type2Regex, '')`: the texts between the matches, joined. `Patterns.GapsAndMatchesTile` and `Patterns.RemoveNothing` state its properties |
| Validator.DepthCounts | src/utils/validateExpression.ts:2-10 | The running depth is the number of `(` minus the number of `)` |
| Validator.CheckParentheses | src/utils/validateExpression.ts:2-11 | The depth loop returns the extra-closing message exactly when some prefix has more `)` than `(`; otherwise it returns the missing-closing message exactly when the depth ends positive, and nothing else |
| Validator.ParenCheck | src/utils/validateExpression.ts:2-11 | The parenthesis checks give only the two parenthesis messages |
| Validator.ExtraClosingWins | src/utils/validateExpression.ts:3-9 | The extra-closing message comes exactly from inputs with a prefix holding more `)` than `(`, whatever else they hold |
| Validator.MissingClosing | src/utils/validateExpression.ts:11 | The missing-closing message comes exactly from inputs with no such prefix and more `(` than `)` |
| Validator.LaterChecksSeeBalance | src/utils/validateExpression.ts:2-11 | Any other outcome comes from balanced input: equal counts, and no prefix has more `)` than `(` |
| Validator.BlankIsValid | src/utils/validateExpression.ts:13 | Blank input is valid |
| Validator.JudgedOnNormalized | src/utils/validateExpression.ts:13-17 | Balanced non-blank input is judged on its quote-normalised form |
| Validator.CollapseLeavesPlainText | src/utils/validateExpression.ts:17 | Text without single-quote characters passes the collapse unchanged |
| Validator.Normalize | src/utils/validateExpression.ts:15-17 | The two quote replacements, typographic double quotes first. `Validator.NormalizeSettles` states what the result looks like |
| Validator.CollapseRun | src/utils/validateExpression.ts:17 | Each maximal run of the seven single-quote characters becomes exactly one `'`, whatever surrounds it |
| Validator.NormalizeSettles | src/utils/validateExpression.ts:15-17 | After normalisation no typographic double quote is left, the only single quote is `'`, and no two single quotes are adjacent; normalising again changes nothing |
| Validator.DetectsTheKindPresent | src/utils/validateExpression.ts:19-40 | When only one kind of block is found, the query pattern looks for that kind: keyed blocks are present when keyed is chosen; bare literals are present, and keyed blocks absent, when bare is chosen |
| Validator.Detect | src/utils/validateExpression.ts:19-40 | Keyed blocks are looked for in the text and bare literals in the text with the keyed blocks removed; both, neither, or the one kind found. `Validator.DetectsTheKindPresent`, `Validator.MixedBlocksRejected` and `Validator.NoBlocksUnrecognized` state the outcomes |
| Validator.MixedBlocksRejected | src/utils/validateExpression.ts:19-29 | A keyed block, together with a bare literal left after removing the keyed blocks, gives the mixing message |
| Validator.NoBlocksUnrecognized | src/utils/validateExpression.ts:31-33 | Non-blank text with no block of either kind gives the unrecognized message, with the whole trimmed text as its non-empty excerpt |
| Validator.BlockTextIsBlock | src/utils/validateExpression.ts:52-55 | The text of a matched block is never classified as a connector, a negation or a parenthesis |
| Validator.Classify | src/utils/validateExpression.ts:52-55 | A connector is `AND` or `OR` and a negation is `NOT`, upper-cased; a parenthesis or a block keeps the matched text; the value is as long as the matched text |
| Validator.Lex | src/utils/validateExpression.ts:42-59 | The `exec` loop as a function: the stray excerpt it reports is never empty and has no blank margins. `Validator.LexGaps` states the scan as a whole |
| Validator.LexGaps | src/utils/validateExpression.ts:45-59 | The scan succeeds exactly when all the text between and after the matches is blank, and then yields one classified token per match in order; otherwise it reports the first non-blank gap, trimmed |
| Validator.ScanQuery | src/utils/validateExpression.ts:42-59 | The `exec` loop returns exactly the specified scan result |
| Validator.StrayTextRejected | src/utils/validateExpression.ts:46-59 | Non-blank text outside the matches gives the unrecognized message with the first such text, trimmed and non-empty |
| Validator.ScanFindsBlock | src/utils/validateExpression.ts:35-57 | When the text holds a block of the chosen kind, a successful scan yields a block token: keywords and parentheses matched earlier never swallow the start of a block |
| Validator.Sequencing | src/utils/validateExpression.ts:61-79 | The sequencing loop fails only with the missing-connector, misplaced-connector or misplaced-negation message |
| Validator.SequencingIff | src/utils/validateExpression.ts:61-79 | The loop passes exactly when no token is misplaced after its prefix: a block or negation after a block, or a connector not after a block, ignoring negations and parentheses. It then ends expecting an operator exactly when the last block or connector is a block. Otherwise it fails at the first misplaced token with that token's message |
| Validator.CheckSequence | src/utils/validateExpression.ts:61-84 | The `expectOp` loop and the end check return exactly the specified verdict |
| Validator.Verdict | src/utils/validateExpression.ts:61-84 | The `expectOp` loop and the end check give only the missing-connector, misplaced-connector, misplaced-negation and trailing-connector messages |
| Validator.DanglingNotRejected | src/utils/validateExpression.ts:61-82 | A token list of at least two tokens that ends in `NOT` is always rejected |
| Validator.CheckQuery | src/utils/validateExpression.ts:15-84 | The checks after the parenthesis checks never give a parenthesis message |
| Validator.AcceptedQuery | src/utils/validateExpression.ts:19-84 | An accepted query holds one kind of block and a successful scan; its tokens contain a block, none is misplaced, and the last block or connector is a block unless there is only one token |
| Validator.DanglingNotNeverAccepted | src/utils/validateExpression.ts:35-82 | A query whose tokens end in `NOT` is never accepted, even a lone `NOT` after a block |
| Validator.ValidateExpression | src/utils/validateExpression.ts:1-85 | `validateExpression` returns exactly the specified verdict |
| Validator.Validate | src/utils/validateExpression.ts:1-85 | `validateExpression` as a function: the parenthesis checks, then the blank check, then the checks of `Validator.CheckQuery` on the normalised text. `Validator.JudgedOnNormalized`, `Validator.BlankIsValid` and `Validator.LaterChecksSeeBalance` state the order |
| Scenarios.SimpleIsJudgedAsIs | src/utils/validateExpression.ts:2-17 | Text without parentheses, typographic quotes or single quotes, and not starting with whitespace, passes the parenthesis checks and the blank check and is judged exactly as typed |
| Scenarios.LongTextIsBlock | src/utils/validateExpression.ts:52-55 | A matched text longer than three characters is classified as a block |
| Scenarios.TrailingOrRejected | src/utils/validateExpression.ts:80-82 | `"a" OR` is rejected because it ends with a connector |
| Scenarios.NoBlockRejected | src/utils/validateExpression.ts:31-33 | `antivirus OR ???` holds no block of either kind and is reported as unrecognized with the whole text as the excerpt |
| Scenarios.ExtraParenShown | src/utils/validateExpression.ts:3-9 | Any text starting with `AB="X")` is rejected for an extra closing parenthesis, whatever follows |
| Scenarios.ExtraParenRejected | src/utils/validateExpression.ts:3-9 | `AB="X") AND TI="Y"` is rejected for an extra closing parenthesis before any other check |
| Scenarios.NoConnectorRejected | src/utils/validateExpression.ts:64-67 | `TI="A" AB="B"` holds two keyed blocks with only a space between them and is rejected for a missing connector |
| Scenarios.ConjunctionAccepted | src/utils/validateExpression.ts:1-85 | `TI="A" AND AB="B"` is accepted |
| Scenarios.OneGroupBalanced | src/utils/validateExpression.ts:2-11 | A text whose only parentheses are one `(` and a later `)` passes the parenthesis checks |
| Scenarios.KasperskyAccepted | src/utils/validateExpression.ts:1-85 | `TI="Kaspersky" AND NOT (AB="Avast" OR DP="2021")` is accepted: `NOT` after a connector and the parentheses leave the expectation of a block as it is |
| Scenarios.UnterminatedTokens | src/components/HighlightedTextarea.tsx:8-118 | `TI="Kasper` lexes to the key `TI`, `=`, the opening quote and the string `Kasper`, with no closing quote, and the token values spell the input |

## Left out

- The React component (`HighlightedTextarea`, its state, effects and the code editor it embeds) and `App.tsx`: they are user interface, not logic.
- Text is a sequence of characters. JavaScript strings are UTF-16 code units, so characters outside the Basic Multilingual Plane count as two there and as one here.
- Text.Upper: upper-cases ASCII letters only. JavaScript's `toUpperCase` also maps other characters, and a few of them expand into letters of the keywords: U+FB05 and U+FB06 become `ST`, U+0149 becomes `ʼN` and U+1E9A becomes `Aʾ`. Each of these mappings makes the text longer, so a three-character slice holding one never upper-cases to exactly `AND` or `NOT`, and a two-character slice never to `OR`. The upper-cased text is only ever compared with these keywords (the lexer's `upper3`/`upper2`, the validator's connector values), so the difference never changes a result.
- The messages are constructors of `Validator.Message`, not the Russian strings. The unrecognized-text message carries its excerpt as a field.
- HTML escaping: the source inserts token values into the markup unescaped, and so does the model.
- The token type `other` of the validator's token list is never produced by the source, so `Validator.VKind` has no such case.
- Patterns.Matches: its contract states only that every span lies inside the input. Their order and tiling are stated by `Patterns.GapsAndMatchesTile`.
