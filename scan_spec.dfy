/** What one call of Scan returns and how far it reads, as a function of the
    input and the index of the next unread character, with the properties
    of the token stream that follow from it. */
module ScanSpec {
  import opened ConfigTokens
  import opened ScanPosition
  import opened Lexemes

  /** Scan's pair of results: a token or an error. Only a string scan that
      starts at end of input returns neither. */
  datatype ScanResult = ScanResult(token: Option<ConfigToken>, err: Option<string>)

  function Scanned(t: ConfigToken): ScanResult {
    ScanResult(Some(t), None)
  }

  function Failed(e: string): ScanResult {
    ScanResult(None, Some(e))
  }

  /** A scan's result and the index of the next unread character. */
  datatype Step = Step(result: ScanResult, next: nat)

  /** The zero position a sub-scanner leaves in startPos for Scan to fill in. */
  const NoPos := Pos(0, 0)

  /** The message of the error a one-character lookahead reports at end of input. */
  const PeekEOF := "EOF"

  const UnterminatedString := "Unterminated string"

  /** scanWord started at index k. */
  function WordStep(input: seq<char>, k: nat): Step
    requires k <= |input|
  {
    var e := WordEnd(input, k);
    Step(Scanned(ConfigToken(CtkWord, input[k..e], NoPos, ScanEndPos(input, e), None)), e)
  }

  /** scanToEndOfLine started at index k. */
  function ToEndOfLineStep(input: seq<char>, k: nat, tokenType: ConfigTokenType): Step
    requires k <= |input|
  {
    var e := LineEnd(input, k);
    Step(Scanned(ConfigToken(tokenType, input[k..e], NoPos, ScanEndPos(input, e), None)), e)
  }

  /** scanWhiteSpace started at index k. */
  function WhiteSpaceStep(input: seq<char>, k: nat): Step
    requires k <= |input|
  {
    match WhiteSpaceFrom(input, k)
    case Stopped(v, e) => Step(Scanned(ConfigToken(CtkWhiteSpace, v, NoPos, ScanEndPos(input, e), None)), e)
    case PeekFailed(e) => Step(Failed(PeekEOF), e)
  }

  /** A white-space scan that has collected `buffer` and stands before a
      character that ends the run yields buffer as its token. */
  lemma WhiteSpaceStepStops(input: seq<char>, k: nat, buffer: string, e: nat)
    requires k <= e <= |input|
    requires WhiteSpaceFrom(input, k) == PrependBlanks(buffer, WhiteSpaceFrom(input, e))
    requires WhiteSpaceFrom(input, e) == Stopped([], e)
    ensures WhiteSpaceStep(input, k) == Step(Scanned(ConfigToken(CtkWhiteSpace, buffer, NoPos, ScanEndPos(input, e), None)), e)
  {
    assert buffer + [] == buffer;
  }

  /** The end of a string scan that found its closing quote: the text read,
      raw, decoded into a Word, or the decoding error. */
  function DecodedStep(raw: string, next: nat, endPos: ConfigScannerPos): Step {
    match DecodeStringWord(raw)
    case Ok(w) => Step(Scanned(ConfigToken(CtkWord, w, NoPos, endPos, None)), next)
    case Err(m) => Step(Failed(m), next)
  }

  /** scanStringWord started at index k: the character at k opens the string. */
  function StringWordStep(input: seq<char>, k: nat): Step
    requires k <= |input|
  {
    if k == |input| then Step(ScanResult(None, None), k)
    else
      match ClosingQuote(input, k + 1, false)
      case Some(e) => DecodedStep(input[k..e], e, ScanEndPos(input, e))
      case None =>
        var e := |input|;
        Step(Scanned(ConfigToken(CtkInvalid, input[k..], NoPos, ScanEndPos(input, e), Some(UnterminatedString))), e)
  }

  /** Scan turns the word read after a doubled dash into an option. */
  function AsOption(st: Step): Step {
    match st.result.token
    case Some(t) =>
      if t.tokenType != CtkInvalid
      then st.(result := st.result.(token := Some(t.(tokenType := CtkOption, value := "-" + t.value))))
      else st
    case None => st
  }

  /** Scan stamps the start position on the token a sub-scanner returned. */
  function WithStart(st: Step, p: ConfigScannerPos): Step {
    match st.result.token
    case Some(t) => st.(result := st.result.(token := Some(t.(startPos := p))))
    case None => st
  }

  /** What Scan's dispatch on the character at index k yields, before the
      start position is stamped on the token. */
  function Dispatch(input: seq<char>, k: nat): Step
    requires k < |input|
  {
    var c := input[k];
    if c == '\n' then Step(Scanned(ConfigToken(CtkTerminator, "\n", NoPos, PosAt(input, k + 1), None)), k + 1)
    else if IsSpace(c) then WhiteSpaceStep(input, k)
    else if c == '#' then ToEndOfLineStep(input, k, CtkComment)
    else if c == '!' || c == '@' then ToEndOfLineStep(input, k, CtkShellCommand)
    else if c == '-' then
      if k + 1 == |input| then Step(Failed(PeekEOF), k + 1)
      else if input[k + 1] == '-' then AsOption(WordStep(input, k + 1))
      else WordStep(input, k)
    else if c == '"' then StringWordStep(input, k)
    else WordStep(input, k)
  }

  /** The result of Scan when the next unread character is at index k. */
  function NextToken(input: seq<char>, k: nat): Step
    requires k <= |input|
  {
    if k == |input| then
      var p := ScanEndPos(input, k);
      WithStart(Step(Scanned(ConfigToken(CtkEOF, "", NoPos, p, None)), k), p)
    else WithStart(Dispatch(input, k), PosAt(input, k + 1))
  }

  /** Unfolds Dispatch's dash branch for ScanDash, whose proof is costly
      without it. */
  lemma DashDispatch(input: seq<char>, k: nat)
    requires k < |input| && input[k] == '-'
    ensures Dispatch(input, k) ==
      if k + 1 == |input| then Step(Failed(PeekEOF), k + 1)
      else if input[k + 1] == '-' then AsOption(WordStep(input, k + 1))
      else WordStep(input, k)
  {
  }

  // ----- Properties of one Scan -----

  /** At end of input Scan returns an EOF token at the current position, with
      an empty value and no error, and reads nothing; so it does so forever.
      The column is at least 1, and an empty input gives EOF at (1, 1). */
  lemma EofForever(input: seq<char>)
    ensures var p := ScanEndPos(input, |input|);
      && NextToken(input, |input|) == Step(Scanned(ConfigToken(CtkEOF, "", p, p, None)), |input|)
      && p.col >= 1
      && (input == [] ==> p == Pos(1, 1))
  {
  }

  /** A quoted string that closes is a well-formed literal, so it always
      becomes a Word: scanning a string never fails. */
  lemma ClosedStringDecodes(input: seq<char>, k: nat, e: nat)
    requires k < |input| && input[k] == '"'
    requires ClosingQuote(input, k + 1, false) == Some(e)
    ensures IsQuoted(input[k..e])
    ensures StringWordStep(input, k) ==
      Step(Scanned(ConfigToken(CtkWord, Unescape(input[k + 1..e - 1], false), NoPos, PosAt(input, e), None)), e)
  {
    var raw := input[k..e];
    assert |raw| == e - k >= 2;
    assert raw[0] == input[k] && raw[|raw| - 1] == input[e - 1];
    assert raw[1..|raw| - 1] == input[k + 1..e - 1] by {
      forall j | 1 <= j < |raw| - 1 ensures raw[j] == input[k + j] { }
    }
  }

  /** Every Scan returns exactly one of a token and an error, and reads at
      least one character unless the input is exhausted. */
  lemma TokenOrError(input: seq<char>, k: nat)
    requires k <= |input|
    ensures NextToken(input, k).result.token.Some? != NextToken(input, k).result.err.Some?
    ensures k < |input| ==> k < NextToken(input, k).next <= |input|
    ensures k == |input| ==> NextToken(input, k).next == k
  {
    if k < |input| {
      var c := input[k];
      if c == '"' {
        assert Dispatch(input, k) == StringWordStep(input, k);
        var q := ClosingQuote(input, k + 1, false);
        if q.Some? {
          ClosedStringDecodes(input, k, q.value);
        }
      } else if c == '-' && k + 1 < |input| && input[k + 1] == '-' {
        assert Dispatch(input, k) == AsOption(WordStep(input, k + 1));
      } else if c != '\n' && IsSpace(c) {
        assert Dispatch(input, k) == WhiteSpaceStep(input, k);
      }
    }
  }

  /** A token's start is the position of its first character and its end the
      position of the last character it consumed (the character that stopped
      it is left unread), so the start never comes after the end. */
  lemma TokenSpan(input: seq<char>, k: nat)
    requires k < |input|
    requires NextToken(input, k).result.token.Some?
    ensures var st := NextToken(input, k);
      && st.result.token.value.startPos == PosAt(input, k + 1)
      && st.result.token.value.endPos == PosAt(input, st.next)
      && AtOrBefore(st.result.token.value.startPos, st.result.token.value.endPos)
  {
    TokenOrError(input, k);
    var st := NextToken(input, k);
    if k + 1 < st.next {
      PosAtIncreasing(input, k + 1, st.next);
    }
  }

  /** Consecutive tokens are adjacent: the next token starts one read after
      the previous one ends. */
  lemma TokensAdjacent(input: seq<char>, k: nat)
    requires k < |input|
    requires NextToken(input, k).result.token.Some?
    requires NextToken(input, k).next < |input|
    ensures var st := NextToken(input, k);
      var e := st.next;
      && NextToken(input, e).result.token.Some?
      ==> NextToken(input, e).result.token.value.startPos ==
          Advance(st.result.token.value.endPos, input[e - 1] == '\n')
  {
    var e := NextToken(input, k).next;
    TokenSpan(input, k);
    if NextToken(input, e).result.token.Some? {
      TokenSpan(input, e);
    }
  }

  /** The EOF token that follows the last token starts exactly where that
      token ends: reading end of input does not move a non-empty input's
      position. */
  lemma EofAfterLastToken(input: seq<char>, k: nat)
    requires k < |input|
    requires NextToken(input, k).result.token.Some?
    requires NextToken(input, k).next == |input|
    ensures NextToken(input, |input|).result.token.Some?
    ensures NextToken(input, |input|).result.token.value.startPos == NextToken(input, k).result.token.value.endPos
  {
    TokenSpan(input, k);
  }

  /** A newline is a Terminator token on its own, starting and ending at the
      newline's position. */
  lemma NewlineIsTerminator(input: seq<char>, k: nat)
    requires k < |input| && input[k] == '\n'
    ensures var p := PosAt(input, k + 1);
      NextToken(input, k) == Step(Scanned(ConfigToken(CtkTerminator, "\n", p, p, None)), k + 1)
  {
  }

  /** A doubled dash starts an Option whose value is the source text with both
      dashes, up to the next white space. */
  lemma DoubleDashIsOption(input: seq<char>, k: nat)
    requires k + 1 < |input| && input[k] == '-' && input[k + 1] == '-'
    ensures var e := WordEnd(input, k + 1);
      NextToken(input, k) ==
        Step(Scanned(ConfigToken(CtkOption, input[k..e], PosAt(input, k + 1), PosAt(input, e), None)), e)
  {
    var e := WordEnd(input, k + 1);
    assert "-" + input[k + 1..e] == input[k..e];
  }

  /** A dash followed by anything else is an ordinary word. */
  lemma SingleDashIsWord(input: seq<char>, k: nat)
    requires k + 1 < |input| && input[k] == '-' && input[k + 1] != '-'
    ensures var e := WordEnd(input, k);
      NextToken(input, k) ==
        Step(Scanned(ConfigToken(CtkWord, input[k..e], PosAt(input, k + 1), PosAt(input, e), None)), e)
  {
  }

  /** A dash that is the last character makes the lookahead fail: Scan
      returns that error and no token, having consumed the dash. */
  lemma TrailingDashFails(input: seq<char>)
    requires |input| > 0 && input[|input| - 1] == '-'
    ensures NextToken(input, |input| - 1) == Step(Failed(PeekEOF), |input|)
  {
  }

  /** A character that starts no other token begins a Word: the longest run
      of non-space characters, verbatim (quotes, '#' and backslashes after
      the first character included). */
  lemma PlainWord(input: seq<char>, k: nat)
    requires k < |input|
    requires var c := input[k]; !IsSpace(c) && c != '#' && c != '!' && c != '@' && c != '-' && c != '"'
    ensures var e := WordEnd(input, k);
      && NextToken(input, k) ==
         Step(Scanned(ConfigToken(CtkWord, input[k..e], PosAt(input, k + 1), PosAt(input, e), None)), e)
      && k < e
  {
  }

  /** '#' starts a Comment, '!' and '@' a ShellCommand: the text from the
      trigger character up to, and not including, the next newline, which is
      left unread. */
  lemma RestOfLine(input: seq<char>, k: nat)
    requires k < |input| && input[k] in "#!@"
    ensures var e := LineEnd(input, k);
      var kind := if input[k] == '#' then CtkComment else CtkShellCommand;
      && NextToken(input, k) ==
         Step(Scanned(ConfigToken(kind, input[k..e], PosAt(input, k + 1), PosAt(input, e), None)), e)
      && k < e
      && (e < |input| ==> input[e] == '\n')
  {
  }

  /** A blank other than a newline starts a WhiteSpace token whose value is
      exactly the blanks read: a backslash-newline continuation is consumed
      and contributes nothing. A run that passes only blanks and
      continuations up to a backslash ending the input makes the lookahead
      fail, and Scan returns that error. */
  lemma WhiteSpaceToken(input: seq<char>, k: nat)
    requires k < |input| && IsSpace(input[k]) && input[k] != '\n'
    ensures var st := NextToken(input, k);
      || (&& st.result.token.Some?
          && st.result.token.value.tokenType == CtkWhiteSpace
          && st.result.token.value.value == Blanks(input[k..st.next])
          && st.result.token.value.value[0] == input[k]
          && AllInWhiteSpace(input, k, st.next)
          && (st.next == |input| || input[st.next] == '\n' || !IsSpace(input[st.next]))
          && (st.next < |input| && input[st.next] == '\\' ==>
                st.next + 1 < |input| && input[st.next + 1] != '\n'))
      || (&& st == Step(Failed(PeekEOF), |input|)
          && input[|input| - 1] == '\\'
          && AllInWhiteSpace(input, k, |input| - 1))
  {
    assert input[k] != '\\';
    WhiteSpaceRunEnd(input, k);
    WhiteSpaceRunCovers(input, k);
    WhiteSpaceRunValue(input, k);
  }

  /** A string that never closes is an Invalid token holding the raw text
      read, opening quote included, and the "Unterminated string" error. */
  lemma UnterminatedStringIsInvalid(input: seq<char>, k: nat)
    requires k < |input| && input[k] == '"'
    requires NeverCloses(input, k + 1)
    ensures NextToken(input, k) ==
      Step(Scanned(ConfigToken(CtkInvalid, input[k..], PosAt(input, k + 1), PosAt(input, |input|),
                               Some(UnterminatedString))), |input|)
  {
    assert ClosingQuote(input, k + 1, false).None? by {
      ClosingQuoteNone(input, k + 1);
    }
    assert Dispatch(input, k) == StringWordStep(input, k);
  }

  /** A string ends at its first unescaped quote and becomes the Word holding
      the decoded text between the quotes. */
  lemma StringEndsAtFirstUnescapedQuote(input: seq<char>, k: nat, e: nat)
    requires k < |input| && input[k] == '"'
    requires ClosesAt(input, k + 1, e)
    ensures NextToken(input, k) ==
      Step(Scanned(ConfigToken(CtkWord, Unescape(input[k + 1..e - 1], false), PosAt(input, k + 1), PosAt(input, e), None)), e)
  {
    ClosingQuoteIsFirstUnescapedQuote(input, k + 1, e);
    ClosedStringToken(input, k, e);
  }

  /** A string whose closing quote is found just before e scans as the Word
      holding its decoded body. */
  lemma ClosedStringToken(input: seq<char>, k: nat, e: nat)
    requires k < |input| && input[k] == '"'
    requires ClosingQuote(input, k + 1, false) == Some(e)
    ensures NextToken(input, k) ==
      Step(Scanned(ConfigToken(CtkWord, Unescape(input[k + 1..e - 1], false), PosAt(input, k + 1), PosAt(input, e), None)), e)
  {
    ClosedStringDecodes(input, k, e);
    assert Dispatch(input, k) == StringWordStep(input, k);
  }

  /** Where the parts of a quoted literal sit when it occurs at index k. */
  lemma QuoteInInput(input: seq<char>, k: nat, s: string)
    requires k + |Quote(s)| <= |input|
    requires input[k..k + |Quote(s)|] == Quote(s)
    ensures |Quote(s)| == |Escape(s)| + 2
    ensures input[k] == '"' && input[k + 1 + |Escape(s)|] == '"'
    ensures input[k + 1..k + 1 + |Escape(s)|] == Escape(s)
  {
    var n := |Escape(s)|;
    SplitSlice(input, k, k + |Quote(s)|, ['"'] + Escape(s), ['"']);
    SplitSlice(input, k, k + 1 + n, ['"'], Escape(s));
    assert input[k..k + 1][0] == input[k];
    assert input[k + 1 + n..k + n + 2][0] == input[k + 1 + n];
  }

  /** The literal Quote(s) at index k opens at k, closes just after its last
      character, and its body decodes to s. */
  lemma QuoteCloses(input: seq<char>, k: nat, s: string, e: nat)
    requires e == k + |Quote(s)| <= |input|
    requires input[k..e] == Quote(s)
    ensures input[k] == '"'
    ensures ClosingQuote(input, k + 1, false) == Some(e)
    ensures Unescape(input[k + 1..e - 1], false) == s
  {
    assert input[k] == '"' && input[e - 1] == '"' && input[k + 1..e - 1] == Escape(s) by {
      QuoteInInput(input, k, s);
    }
    ClosingQuoteAfterEscape(input, k + 1, e - 1, s);
    EscapedBodyDecodes(input[k + 1..e - 1], s);
  }

  /** A body that is the escaped form of s decodes to s. */
  lemma EscapedBodyDecodes(body: string, s: string)
    requires body == Escape(s)
    ensures Unescape(body, false) == s
  {
    UnescapeEscape(s);
  }

  /** Round trip: the literal Quote(s) in the input scans as the Word s, and
      the scan stops right after its closing quote. */
  lemma QuotedStringRoundTrip(input: seq<char>, k: nat, s: string)
    requires k + |Quote(s)| <= |input|
    requires input[k..k + |Quote(s)|] == Quote(s)
    ensures var e := k + |Quote(s)|;
      NextToken(input, k) ==
        Step(Scanned(ConfigToken(CtkWord, s, PosAt(input, k + 1), PosAt(input, e), None)), e)
  {
    var e := k + |Quote(s)|;
    QuoteCloses(input, k, s, e);
    ClosedStringToken(input, k, e);
  }
}
