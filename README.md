# grv config scanner in Dafny

A model of the lexer for grv's configuration language (`cmd/grv/config_scan.go`),
with proofs about it. `ConfigScanner` reads characters one at a time. It keeps a
1-based line/column position in three fields: `pos`, `lastCharLineEnd` and
`lastLineEndCol`. It can push back one character. Each call of `Scan` returns one
token: White Space, Comment, Shell Command, Word, Option, Terminator, EOF, or an
Invalid token for an unterminated string. It returns an error instead when a
one-character lookahead hits end of input.

Modules, in dependency order:

- `tokens.dfy` (`ConfigTokens`): token types, positions and tokens, `Equal`, and
  `ConfigTokenName`. `ConfigTokenName` renders a bit mask of token types as names
  joined by " or ".
- `position.dfy` (`ScanPosition`): `PosAt`, the position computed from the number
  of characters consumed.
- `lexemes.dfy` (`Lexemes`): where each kind of lexeme ends (`WordEnd`, `LineEnd`,
  `WhiteSpaceFrom`, `ClosingQuote`). Also the decoding of quoted literals
  (`Unescape`, `DecodeStringWord`) and the `ProcessStringWord` loop proved against it.
- `scan_spec.dfy` (`ScanSpec`): `NextToken`, what one `Scan` returns and how far it
  reads. Also the lemmas about the token stream.
- `scanner.dfy` (`ConfigScan`): the class `ConfigScanner`.
  - Its input is a `seq<char>` plus a `cursor`.
  - It keeps the source's position fields and updates them with the source's own
    arithmetic.
  - `Valid()` ties those fields to `PosAt`. `pos` is the computed position, which
    is (1, 0) before anything is read. `lastCharLineEnd` holds exactly when the
    last consumed character is a newline.
  - Every scanning method is proved to return what `NextToken` (or the step
    function of its sub-scanner) says, and to leave the cursor where that says.

Two properties of the code are worth stating plainly:

- An Option token's value is `"-"` plus the word scanned from the second dash.
  The lookahead does not consume that dash, so the value keeps both dashes:
  `--verbose` gives `"--verbose"` (`DoubleDashIsOption`).
- A token's `endPos` is the position of its last character. The next token's
  `startPos` is one `Advance` past it: the position of the character after
  (`TokensAdjacent`). The EOF token after the last token is the exception. It
  starts exactly at that token's `endPos` (`EofAfterLastToken`).

## Model

| member | source | states |
|---|---|---|
| ConfigTokens.Equal | cmd/grv/config_scan.go:65-78 | Token equality holds exactly when the other token is present and equal in every field. Error messages are compared by text. |
| ConfigTokens.ConfigTokenName | cmd/grv/config_scan.go:80-91 | The bit loop from CtkInvalid to CtkCount yields the names of the set bits, in ascending bit order, joined by " or ". |
| ConfigTokens.TokenMaskNameExactly | cmd/grv/config_scan.go:84-88 | A type's name is among the rendered names exactly when its bit is set in the mask. |
| ConfigTokens.SingleTypeName | cmd/grv/config_scan.go:30-39 | A mask with a single type renders as that type's name from the names table. |
| ConfigTokens.WordOrOptionName | cmd/grv/config_scan.go:80-91 | Word and Option together render as "Word or Option". |
| ConfigTokens.SelectedNamesExactly | cmd/grv/config_scan.go:84-88 | After j rounds of the loop, a name has been collected exactly when its bit is below j and set in the mask. |
| ScanPosition.PosAtCounts | cmd/grv/config_scan.go:104-127 | Independent description of the position after n reads: line = 1 + newlines before the last character read; col = characters read since the start of that line. |
| ScanPosition.PosAtIncreasing | cmd/grv/config_scan.go:114-124 | Each read moves the position strictly forward in (line, col) order. |
| ScanPosition.PosAtBounds | cmd/grv/config_scan.go:93-124 | Lines start at 1, and columns are at least 1 once a character has been read. |
| ScanPosition.PosAtLineStart | cmd/grv/config_scan.go:134-141 | The pushback's test `line > 1 && col == 1` holds exactly when the character before the one just read is a newline. |
| ConfigScan.ConfigScanner.constructor | cmd/grv/config_scan.go:93-102 | A new scanner is at line 1, column 0, with nothing read. |
| ConfigScan.ConfigScanner.Read | cmd/grv/config_scan.go:104-127 | Returns the next character and advances, or reports EOF without consuming. pos becomes the position computed from the consumed prefix. At EOF a column still at 0 (nothing read yet) becomes 1; otherwise pos is unchanged. |
| ConfigScan.ConfigScanner.Unread | cmd/grv/config_scan.go:129-144 | Steps the cursor back one and restores pos and lastCharLineEnd exactly to their values before the last read. Across a newline, the column comes back from lastLineEndCol. |
| ConfigScan.ConfigScanner.Peek | cmd/grv/config_scan.go:243-248 | The lookahead succeeds exactly when a character is left, gives that character without consuming it, and fails with "EOF" at end of input. |
| ConfigScan.ConfigScanner.ReadUnread | cmd/grv/config_scan.go:104-144 | A read that returns a character, followed by unread, leaves cursor, pos and lastCharLineEnd as they were. |
| ConfigScan.ConfigScanner.Scan | cmd/grv/config_scan.go:147-223 | Returns exactly NextToken's token or error, with startPos stamped, and consumes exactly what NextToken says. pos stays the computed position. |
| ConfigScan.ConfigScanner.ScanSwitch | cmd/grv/config_scan.go:151-181 | The first cases of Scan's switch: newline, white space, '#', '!' and '@'. Each yields Dispatch's result for the character just read. |
| ConfigScan.ConfigScanner.ScanWordSwitch | cmd/grv/config_scan.go:182-216 | The remaining cases of Scan's switch ('-', '"', default) yield Dispatch's result. |
| ConfigScan.ConfigScanner.ScanDash | cmd/grv/config_scan.go:182-203 | After '-': the lookahead's error at end of input; or an Option built from the word at the second dash; or the pushed-back dash scanned as a Word. |
| ConfigScan.ConfigScanner.ReadWhiteSpaceChar | cmd/grv/config_scan.go:233-275 | One pass of the white-space loop. It decides whether to collect a blank, skip an escaped newline, continue after backslash-newline, stop (pushing the character back), or fail the peek. Each outcome is tied to WhiteSpaceFrom. |
| ConfigScan.ConfigScanner.ScanWhiteSpace | cmd/grv/config_scan.go:225-287 | Returns the white-space token, or the peek error, and the end position exactly as WhiteSpaceStep specifies. |
| ConfigScan.ConfigScanner.ScanComment | cmd/grv/config_scan.go:289-291 | A Comment token holding the text up to the end of the line. |
| ConfigScan.ConfigScanner.ScanShellCommand | cmd/grv/config_scan.go:293-295 | A Shell Command token holding the text up to the end of the line. |
| ConfigScan.ConfigScanner.ScanToEndOfLine | cmd/grv/config_scan.go:297-331 | The value is input[k..LineEnd(k)]. The newline, if any, is left unread. endPos is the position of the last character taken, so the newline that stops it is not counted. |
| ConfigScan.ConfigScanner.ScanWord | cmd/grv/config_scan.go:333-367 | The value is input[k..WordEnd(k)], verbatim. The white space that stops the word is left unread. |
| ConfigScan.ConfigScanner.ScanStringWord | cmd/grv/config_scan.go:369-444 | At EOF: neither token nor error. A closed string: its decoding, as a Word, or the decoder's error. An unterminated string: an Invalid token with the raw text and "Unterminated string". |
| ConfigScan.ConfigScanner.ScanToClosingQuote | cmd/grv/config_scan.go:383-420 | Reads through the first quote not escaped by a backslash (ClosingQuote), or to the end of input. Returns everything read, opening character included. |
| Lexemes.WordEnd | cmd/grv/config_scan.go:338-358 | The word ends at the first white-space character or at the end of input. Every character before that is not white space. |
| Lexemes.LineEnd | cmd/grv/config_scan.go:302-322 | The line ends at the first newline or at the end of input. No character before that is a newline. |
| Lexemes.ClosingQuote | cmd/grv/config_scan.go:386-420 | If a closing quote is found, it is inside the input and is a '"'. ClosingQuoteIsFirstUnescapedQuote and ClosingQuoteNone say which quote it is. |
| Lexemes.ClosingQuoteFrom | cmd/grv/config_scan.go:386-420 | Scanning from any index with the escape flag set by "follows an odd run of backslashes" finds the first unescaped quote from there, or reports None when there is none. |
| Lexemes.ClosingQuoteIsFirstUnescapedQuote | cmd/grv/config_scan.go:386-420 | The string closes just after e exactly when input[e-1] is a quote that no odd run of backslashes escapes, and no earlier quote of the body is unescaped. |
| Lexemes.ClosingQuoteNone | cmd/grv/config_scan.go:386-420 | The string never closes exactly when its body has no unescaped quote. |
| Lexemes.EscapedBackslashThenQuote | cmd/grv/config_scan.go:395-412 | An escaped backslash followed by a quote leaves the quote unescaped, so `\\"` closes the string. |
| Lexemes.BackslashQuoteIsEscaped | cmd/grv/config_scan.go:395-412 | An unescaped backslash escapes the quote that follows it, so `\"` does not close the string. |
| Lexemes.WhiteSpaceRunEnd | cmd/grv/config_scan.go:233-275 | The run fails only on a backslash that ends the input. Otherwise it stops at end of input, at a newline, or at a non-space character. It never stops before a backslash-newline pair: a backslash it stops at is followed by something other than a newline. |
| Lexemes.IsSpace | cmd/grv/config_scan.go:164 | Go's unicode.IsSpace: exactly the Unicode White_Space characters. These are tab, newline, vertical tab, form feed, carriage return, space, U+0085, U+00A0, U+1680, U+2000 to U+200A, U+2028, U+2029, U+202F, U+205F and U+3000. |
| Lexemes.IsSpaceLatin1 | cmd/grv/config_scan.go:164 | Below U+0100 the white-space test is Go's Latin-1 rule: tab, newline, vertical tab, form feed, carriage return, space, NEL and no-break space. |
| Lexemes.WhiteSpaceRunCovers | cmd/grv/config_scan.go:233-275 | Every character the run passes is a blank other than newline, or part of a backslash-newline pair. That holds up to where a stopped run stops, and up to the trailing backslash where a failed run fails. |
| Lexemes.WhiteSpaceRunValue | cmd/grv/config_scan.go:233-275 | The collected value is exactly the non-newline white space among the characters passed. |
| Lexemes.DecodeStringWord | cmd/grv/config_scan.go:446-478 | Succeeds exactly when the text is wrapped in quotes (length at least 2). Otherwise the error is "Invalid string word: " plus the text. The value is never longer than the body. |
| Lexemes.UnescapeLength | cmd/grv/config_scan.go:457-475 | Decoding never lengthens the body. |
| Lexemes.ProcessStringWord | cmd/grv/config_scan.go:446-478 | The decoding loop returns exactly DecodeStringWord's value or error. On error the word is the input text. |
| Lexemes.UnescapeEscape | cmd/grv/config_scan.go:457-475 | Decoding undoes escaping (quote, backslash, newline, tab) for every string. |
| Lexemes.DecodeQuote | cmd/grv/config_scan.go:446-478 | Round trip: the literal built by Quote(s) decodes to s. |
| Lexemes.ClosingQuoteAfterEscape | cmd/grv/config_scan.go:386-420 | An escaped body contains no unescaped quote, so the string closes at the quote after it. |
| ScanSpec.EofForever | cmd/grv/config_scan.go:148-157 | At end of input: an EOF token with empty value, no error, and startPos == endPos. Nothing is consumed, so the same holds on every later call. The column is at least 1, and an empty input gives (1, 1). |
| ScanSpec.TokenOrError | cmd/grv/config_scan.go:147-223 | Every Scan returns exactly one of a token and an error. Before end of input it consumes at least one character. |
| ScanSpec.TokenSpan | cmd/grv/config_scan.go:147-223 | startPos is the position of the token's first character. endPos is the position of the last character consumed. startPos is at or before endPos. |
| ScanSpec.TokensAdjacent | cmd/grv/config_scan.go:147-223 | The next token starts one read after the previous token's end. |
| ScanSpec.NewlineIsTerminator | cmd/grv/config_scan.go:158-163 | A newline is a Terminator "\n" with startPos == endPos. |
| ScanSpec.DoubleDashIsOption | cmd/grv/config_scan.go:182-197 | "--" starts an Option whose value is the source text, both dashes kept, up to the next white space. |
| ScanSpec.SingleDashIsWord | cmd/grv/config_scan.go:199-203 | A dash followed by anything other than '-' is a plain Word. |
| ScanSpec.TrailingDashFails | cmd/grv/config_scan.go:182-187 | A dash that is the last character makes the peek fail. Scan returns that error and no token, having consumed the dash. |
| ScanSpec.PlainWord | cmd/grv/config_scan.go:210-216 | Any other first character starts a Word: the maximal run of non-space characters, verbatim, and never empty. |
| ScanSpec.RestOfLine | cmd/grv/config_scan.go:170-181 | '#' gives a Comment; '!' and '@' give a Shell Command. The value runs from the trigger character up to, but not including, the next newline, which is left unread. |
| ScanSpec.WhiteSpaceToken | cmd/grv/config_scan.go:225-287 | A blank starts a White Space token: the blanks read, with backslash-newline pairs consumed and dropped. It stops before a newline or a non-space character, and never before a backslash-newline pair. The peek error comes instead only when the run reaches a trailing backslash, after passing nothing but blanks and backslash-newline pairs. |
| ScanSpec.UnterminatedStringIsInvalid | cmd/grv/config_scan.go:434-441 | A string whose body has no unescaped quote never closes and is an Invalid token. Its value is the raw text, opening quote included, and its error is "Unterminated string". |
| ScanSpec.ClosedStringDecodes | cmd/grv/config_scan.go:422-433 | The text of a closed string always passes the quote check, so it becomes a Word holding the decoded body. |
| ScanSpec.StringEndsAtFirstUnescapedQuote | cmd/grv/config_scan.go:369-444 | A string whose first unescaped quote sits at e-1 scans as the Word holding its unescaped body. The token ends at that quote and the scan resumes just after it. |
| ScanSpec.EofAfterLastToken | cmd/grv/config_scan.go:148-157 | When a token ends the input, the next scan gives the EOF token, and that token starts at the last token's endPos. |
| ScanSpec.ClosedStringToken | cmd/grv/config_scan.go:369-444 | A string whose closing quote is found scans as the Word holding its decoded body. The token starts at the opening quote and ends at the closing one, and the scan resumes after it. |
| ScanSpec.QuoteCloses | cmd/grv/config_scan.go:383-433 | In the literal Quote(s), the opening quote is at its start and the scan finds the closing quote at its last character. Its body decodes back to s. |
| ScanSpec.QuotedStringRoundTrip | cmd/grv/config_scan.go:369-444 | The literal Quote(s) in the input scans as the Word s, ending right after its closing quote. |

## Left out

- UTF-8 decoding and `bufio` buffering.
  - The input is a sequence of characters.
  - `Peek(1)` compares one byte; it is modelled as looking at the next character, which is the same for the ASCII '-' and '\n' it is compared with.
- Errors from the underlying reader, from `UnreadRune` and from `bytes.Buffer.WriteRune`. They cannot arise on an in-memory sequence, so the `err != nil` branches after each read, unread and write are not modelled. The only reader error modelled is the end-of-input failure of the lookahead.
- The `bufio` rule that a `Peek` prevents a following `UnreadRune` (lines 199 and 252). Under that rule, those pushbacks would return an error. The model takes the single-step pushback the code relies on.
- Unread: requires that the last reader operation was a successful read (a ghost flag), as every call in the source is. Pushing back twice in a row is not modelled.
- Peek: a function of the state rather than a reader call. The source never needs its result beyond one character.
- The width of `uint` line and column counters. They are unbounded naturals, so wrap-around after 2^64 characters is not modelled.
- The token mask is modelled as 64 bits.
- The Go `error` interface and `fmt.Errorf`. Errors are their message strings, and `Equal` compares those messages as the source compares `Error()` texts.
- `*ConfigToken` pointers. A missing token is `None`, and a token is a value, so Scan's stamping of `startPos` builds a new token.
- The scanner's switches and loops are split into helper methods: `ScanSwitch`, `ScanWordSwitch`, `ScanDash`, `ReadWhiteSpaceChar` and `ScanToClosingQuote`. Each is one case group or one loop of the source function it belongs to. Control flow, branches and results are unchanged.
