/** grv's config scanner: a character source with one character of pushback,
    line/column bookkeeping, and Scan with its sub-scanners. */
module ConfigScan {
  import opened ConfigTokens
  import opened ScanPosition
  import opened Lexemes
  import opened ScanSpec

  /** What one pass of the white-space loop does with the character it read:
      collect a blank, skip an escaped newline, continue after a backslash
      that starts a continuation, stop, or fail on a backslash at end of input. */
  datatype WhiteSpaceAction = Collect(c: char) | Skip | Continue | Stop | Fail(msg: string)

  class ConfigScanner {
    /** The reader: the whole input and the index of the next unread character. */
    const input: seq<char>
    var cursor: nat

    var pos: ConfigScannerPos
    var lastCharLineEnd: bool
    var lastLineEndCol: nat

    /** Whether the last reader operation was a read that returned a
        character, so that one pushback is allowed, and the position state
        just before that read. */
    ghost var justRead: bool
    ghost var posBeforeRead: ConfigScannerPos
    ghost var lineEndBeforeRead: bool

    /** pos is the position computed from the characters consumed (or (1, 1)
        once end of input was read on an empty input); lastCharLineEnd says
        whether the last consumed character is a newline; after a read,
        lastLineEndCol holds the column of the newline it stepped over. */
    ghost predicate Valid()
      reads this
    {
      && cursor <= |input|
      && (pos == PosAt(input, cursor) || (input == [] && pos == Pos(1, 1)))
      && lastCharLineEnd == (cursor > 0 && input[cursor - 1] == '\n')
      && (justRead ==>
            && cursor > 0
            && posBeforeRead == PosAt(input, cursor - 1)
            && lineEndBeforeRead == (cursor > 1 && input[cursor - 2] == '\n')
            && (lineEndBeforeRead ==> lastLineEndCol == posBeforeRead.col))
    }

    /** NewConfigScanner: line 1, column 0, nothing read. */
    constructor (reader: seq<char>)
      ensures Valid()
      ensures input == reader && cursor == 0 && pos == Pos(1, 0) && !lastCharLineEnd && !justRead
    {
      input := reader;
      cursor := 0;
      pos := Pos(1, 0);
      lastCharLineEnd := false;
      lastLineEndCol := 0;
      justRead := false;
      posBeforeRead := Pos(1, 0);
      lineEndBeforeRead := false;
    }

    /** Reads one character and advances the position; at end of input it
        reports eof and makes sure the column is at least 1. */
    method Read() returns (c: char, eof: bool)
      requires Valid()
      modifies this
      ensures Valid()
      ensures eof <==> old(cursor) == |input|
      ensures eof ==> cursor == old(cursor) && !justRead
      ensures !eof ==> (c == input[old(cursor)] && cursor == old(cursor) + 1
                       && justRead && posBeforeRead == old(pos) && lineEndBeforeRead == old(lastCharLineEnd))
      ensures pos == ScanEndPos(input, cursor)
    {
      if cursor == |input| {
        c, eof := '\0', true;
        if pos.col == 0 {
          pos := pos.(col := 1);
        }
        justRead := false;
      } else {
        c, eof := input[cursor], false;
        posBeforeRead, lineEndBeforeRead := pos, lastCharLineEnd;
        cursor := cursor + 1;
        if lastCharLineEnd {
          lastLineEndCol := pos.col;
          pos := pos.(line := pos.line + 1, col := 1);
        } else {
          pos := pos.(col := pos.col + 1);
        }
        lastCharLineEnd := c == '\n';
        justRead := true;
      }
    }

    /** Pushes back the character just read, restoring the position state
        from before that read, also when stepping back across a newline. */
    method Unread()
      requires Valid() && justRead
      modifies this
      ensures Valid() && !justRead
      ensures cursor == old(cursor) - 1
      ensures pos == old(posBeforeRead) && lastCharLineEnd == old(lineEndBeforeRead)
      ensures pos == ScanEndPos(input, cursor)
    {
      PosAtLineStart(input, cursor);
      cursor := cursor - 1;
      if pos.line > 1 && pos.col == 1 {
        pos := pos.(line := pos.line - 1, col := lastLineEndCol);
        lastCharLineEnd := true;
      } else {
        pos := pos.(col := pos.col - 1);
        lastCharLineEnd := false;
      }
      justRead := false;
    }

    /** A read that returns a character, followed by a pushback, leaves the
        reader and the position state as they were, also when the character
        read is the first of a new line. */
    method ReadUnread() returns (c: char, eof: bool)
      requires Valid()
      modifies this
      ensures Valid() && cursor == old(cursor)
      ensures eof <==> cursor == |input|
      ensures !eof ==> c == input[cursor] && pos == old(pos) && lastCharLineEnd == old(lastCharLineEnd)
    {
      c, eof := Read();
      if !eof {
        Unread();
      }
    }

    /** The one-character lookahead: the next unread character, which it
        does not consume; it fails at end of input. */
    function Peek(): (r: Result<char>)
      reads this
      ensures r.Ok? <==> cursor < |input|
      ensures r.Ok? ==> r.value == input[cursor]
      ensures r.Err? ==> r.msg == PeekEOF
    {
      if cursor < |input| then Ok(input[cursor]) else Err(PeekEOF)
    }

    /** One pass of the white-space loop: reads a character and says what
        the loop does with it. */
    method ReadWhiteSpaceChar(escape: bool) returns (action: WhiteSpaceAction)
      requires Valid()
      requires escape ==> 0 < cursor < |input| && input[cursor] == '\n' && input[cursor - 1] == '\\'
      modifies this
      ensures Valid() && pos == ScanEndPos(input, cursor)
      ensures action.Collect? ==>
        && !escape && cursor == old(cursor) + 1 && action.c == input[old(cursor)]
        && WhiteSpaceFrom(input, old(cursor)) == PrependBlanks([action.c], WhiteSpaceFrom(input, cursor))
      ensures action.Skip? <==> escape
      ensures action.Skip? ==> cursor == old(cursor) + 1
      ensures action.Continue? ==>
        && cursor == old(cursor) + 1 < |input| && input[cursor] == '\n' && input[cursor - 1] == '\\'
        && WhiteSpaceFrom(input, old(cursor)) == WhiteSpaceFrom(input, cursor + 1)
      ensures action.Stop? ==> cursor == old(cursor) && WhiteSpaceFrom(input, cursor) == Stopped([], cursor)
      ensures action.Fail? ==> WhiteSpaceFrom(input, old(cursor)) == PeekFailed(cursor) && action.msg == PeekEOF
    {
      var c, eof := Read();
      if eof {
        WhiteSpaceStops(input, cursor);
        return Stop;
      } else if c == '\\' {
        var next := Peek();
        if next.Err? {
          return Fail(next.msg);
        } else if next.value == '\n' {
          WhiteSpaceContinuation(input, cursor - 1);
          return Continue;
        }
        Unread();
        WhiteSpaceStops(input, cursor);
        return Stop;
      } else if c == '\n' {
        if !escape {
          Unread();
          WhiteSpaceStops(input, cursor);
          return Stop;
        }
        return Skip;
      } else if !IsSpace(c) {
        Unread();
        WhiteSpaceStops(input, cursor);
        return Stop;
      }
      WhiteSpaceBlank(input, cursor - 1);
      return Collect(c);
    }

    /** Collects blanks, skipping backslash-newline continuations, up to a
        newline or another character, which is left unread. */
    method ScanWhiteSpace() returns (token: Option<ConfigToken>, err: Option<string>)
      requires Valid()
      modifies this
      ensures Valid()
      ensures ScanResult(token, err) == WhiteSpaceStep(input, old(cursor)).result
      ensures cursor == WhiteSpaceStep(input, old(cursor)).next
      ensures pos == ScanEndPos(input, cursor)
    {
      var buffer: string := [];
      var escape := false;
      while true
        invariant Valid() && old(cursor) <= cursor <= |input|
        invariant escape ==> 0 < cursor < |input| && input[cursor] == '\n' && input[cursor - 1] == '\\'
        invariant !escape ==> WhiteSpaceFrom(input, old(cursor)) == PrependBlanks(buffer, WhiteSpaceFrom(input, cursor))
        invariant escape ==> WhiteSpaceFrom(input, old(cursor)) == PrependBlanks(buffer, WhiteSpaceFrom(input, cursor + 1))
        decreases |input| - cursor
      {
        var action := ReadWhiteSpaceChar(escape);
        if action.Stop? {
          WhiteSpaceStepStops(input, old(cursor), buffer, cursor);
          break;
        } else if action.Fail? {
          token, err := None, Some(action.msg);
          return;
        } else if action.Continue? {
          escape := true;
          continue;
        } else if action.Collect? {
          PrependBlanksAppend(buffer, [action.c], WhiteSpaceFrom(input, cursor));
          buffer := buffer + [action.c];
        }
        escape := false;
      }
      token, err := Some(ConfigToken(CtkWhiteSpace, buffer, NoPos, pos, None)), None;
    }

    method ScanComment() returns (token: Option<ConfigToken>, err: Option<string>)
      requires Valid()
      modifies this
      ensures Valid()
      ensures ScanResult(token, err) == ToEndOfLineStep(input, old(cursor), CtkComment).result
      ensures cursor == ToEndOfLineStep(input, old(cursor), CtkComment).next
      ensures pos == ScanEndPos(input, cursor)
    {
      token, err := ScanToEndOfLine(CtkComment);
    }

    method ScanShellCommand() returns (token: Option<ConfigToken>, err: Option<string>)
      requires Valid()
      modifies this
      ensures Valid()
      ensures ScanResult(token, err) == ToEndOfLineStep(input, old(cursor), CtkShellCommand).result
      ensures cursor == ToEndOfLineStep(input, old(cursor), CtkShellCommand).next
      ensures pos == ScanEndPos(input, cursor)
    {
      token, err := ScanToEndOfLine(CtkShellCommand);
    }

    /** Collects everything up to the next newline, which is left unread. */
    method ScanToEndOfLine(tokenType: ConfigTokenType) returns (token: Option<ConfigToken>, err: Option<string>)
      requires Valid()
      modifies this
      ensures Valid()
      ensures ScanResult(token, err) == ToEndOfLineStep(input, old(cursor), tokenType).result
      ensures cursor == ToEndOfLineStep(input, old(cursor), tokenType).next
      ensures pos == ScanEndPos(input, cursor)
    {
      var buffer: string := [];
      while true
        invariant Valid() && old(cursor) <= cursor <= |input|
        invariant LineEnd(input, old(cursor)) == LineEnd(input, cursor)
        invariant buffer == input[old(cursor)..cursor]
        decreases |input| - cursor
      {
        var c, eof := Read();
        if eof {
          break;
        } else if c == '\n' {
          Unread();
          break;
        } else {
          SliceExtend(input, old(cursor), cursor - 1);
          buffer := buffer + [c];
        }
      }
      token, err := Some(ConfigToken(tokenType, buffer, NoPos, pos, None)), None;
    }

    /** Collects non-space characters verbatim; the white space that ends
        the word is left unread. */
    method ScanWord() returns (token: Option<ConfigToken>, err: Option<string>)
      requires Valid()
      modifies this
      ensures Valid()
      ensures ScanResult(token, err) == WordStep(input, old(cursor)).result
      ensures cursor == WordStep(input, old(cursor)).next
      ensures pos == ScanEndPos(input, cursor)
    {
      var buffer: string := [];
      while true
        invariant Valid() && old(cursor) <= cursor <= |input|
        invariant WordEnd(input, old(cursor)) == WordEnd(input, cursor)
        invariant buffer == input[old(cursor)..cursor]
        decreases |input| - cursor
      {
        var c, eof := Read();
        if eof {
          break;
        } else if IsSpace(c) {
          Unread();
          break;
        } else {
          SliceExtend(input, old(cursor), cursor - 1);
          buffer := buffer + [c];
        }
      }
      token, err := Some(ConfigToken(CtkWord, buffer, NoPos, pos, None)), None;
    }

    /** Reads a quoted string through its closing quote and decodes it; at
        end of input it returns the raw text read as an Invalid token. */
    method ScanStringWord() returns (token: Option<ConfigToken>, err: Option<string>)
      requires Valid()
      modifies this
      ensures Valid()
      ensures ScanResult(token, err) == StringWordStep(input, old(cursor)).result
      ensures cursor == StringWordStep(input, old(cursor)).next
      ensures pos == ScanEndPos(input, cursor)
    {
      var c, eof := Read();
      if eof {
        token, err := None, None;
        return;
      }
      var buffer, closingQuoteFound := ScanToClosingQuote(c);
      ghost var k := old(cursor);
      if closingQuoteFound {
        var word, e := ProcessStringWord(buffer);
        assert StringWordStep(input, k) == DecodedStep(buffer, cursor, pos);
        if e.Some? {
          token, err := None, e;
          return;
        }
        token, err := Some(ConfigToken(CtkWord, word, NoPos, pos, None)), None;
      } else {
        assert buffer == input[k..];
        token, err := Some(ConfigToken(CtkInvalid, buffer, NoPos, pos, Some(UnterminatedString))), None;
      }
    }

    /** The loop of ScanStringWord, entered with the opening character
        `first` read: it reads through the first quote not escaped by a
        backslash, or to end of input, and returns everything read. */
    method ScanToClosingQuote(first: char) returns (buffer: string, closingQuoteFound: bool)
      requires Valid() && 0 < cursor && input[cursor - 1] == first
      modifies this
      ensures Valid() && old(cursor) <= cursor
      ensures buffer == input[old(cursor) - 1..cursor]
      ensures closingQuoteFound ==> ClosingQuote(input, old(cursor), false) == Some(cursor)
      ensures !closingQuoteFound ==> ClosingQuote(input, old(cursor), false).None? && cursor == |input|
      ensures pos == ScanEndPos(input, cursor)
    {
      buffer := [first];
      closingQuoteFound := false;
      var escape := false;
      while true
        invariant Valid() && old(cursor) <= cursor <= |input|
        invariant buffer == input[old(cursor) - 1..cursor]
        invariant ClosingQuote(input, old(cursor), false) == ClosingQuote(input, cursor, escape)
        invariant !closingQuoteFound
        decreases |input| - cursor
      {
        var c, eof := Read();
        if eof {
          break;
        }
        SliceExtend(input, old(cursor) - 1, cursor - 1);
        if c == '\\' {
          buffer := buffer + [c];
          if !escape {
            escape := true;
            continue;
          }
        } else if c == '"' {
          buffer := buffer + [c];
          if !escape {
            closingQuoteFound := true;
            break;
          }
        } else {
          buffer := buffer + [c];
        }
        escape := false;
      }
    }

    /** Returns the next token, stamped with the position of its first
        character, or the error of a failed lookahead. At end of input the
        token is EOF. */
    method Scan() returns (token: Option<ConfigToken>, err: Option<string>)
      requires Valid()
      modifies this
      ensures Valid()
      ensures ScanResult(token, err) == NextToken(input, old(cursor)).result
      ensures cursor == NextToken(input, old(cursor)).next
      ensures pos == ScanEndPos(input, cursor)
    {
      var c, eof := Read();
      var startPos := pos;
      if eof {
        token, err := Some(ConfigToken(CtkEOF, "", startPos, pos, None)), None;
        return;
      }
      token, err := ScanSwitch(c);
      if token.Some? {
        token := Some(token.value.(startPos := startPos));
      }
    }

    /** The '-' case of Scan's switch, entered with the dash read: a second
        dash makes the word after the first dash an Option (a failed
        lookahead is returned as the error); otherwise the dash is pushed
        back and starts a Word. */
    method ScanDash() returns (token: Option<ConfigToken>, err: Option<string>)
      requires Valid() && justRead && 0 < cursor && input[cursor - 1] == '-'
      modifies this
      ensures Valid()
      ensures ScanResult(token, err) == Dispatch(input, old(cursor) - 1).result
      ensures cursor == Dispatch(input, old(cursor) - 1).next
      ensures pos == ScanEndPos(input, cursor)
    {
      DashDispatch(input, cursor - 1);
      var next := Peek();
      if next.Err? {
        token, err := None, Some(next.msg);
      } else if next.value == '-' {
        token, err := ScanWord();
        if token.Some? && token.value.tokenType != CtkInvalid {
          token := Some(token.value.(tokenType := CtkOption, value := "-" + token.value.value));
        }
      } else {
        Unread();
        token, err := ScanWord();
      }
    }

    /** Scan's switch on the character c just read: a newline is a
        Terminator on its own; otherwise c is pushed back (except after a
        dash) and the sub-scanner it selects reads the token. */
    method ScanSwitch(c: char) returns (token: Option<ConfigToken>, err: Option<string>)
      requires Valid() && justRead && 0 < cursor && input[cursor - 1] == c
      modifies this
      ensures Valid()
      ensures ScanResult(token, err) == Dispatch(input, old(cursor) - 1).result
      ensures cursor == Dispatch(input, old(cursor) - 1).next
      ensures pos == ScanEndPos(input, cursor)
    {
      if c == '\n' {
        token, err := Some(ConfigToken(CtkTerminator, "\n", NoPos, pos, None)), None;
        return;
      }
      if IsSpace(c) {
        Unread();
        token, err := ScanWhiteSpace();
        return;
      }
      if c == '#' {
        Unread();
        token, err := ScanComment();
        return;
      }
      if c == '!' || c == '@' {
        Unread();
        token, err := ScanShellCommand();
        return;
      }
      token, err := ScanWordSwitch(c);
    }

    /** The word cases of the switch in Scan: an option, a quoted string or
        a plain word. */
    method ScanWordSwitch(c: char) returns (token: Option<ConfigToken>, err: Option<string>)
      requires Valid() && justRead && 0 < cursor && input[cursor - 1] == c
      requires !IsSpace(c) && c != '#' && c != '!' && c != '@'
      modifies this
      ensures Valid()
      ensures ScanResult(token, err) == Dispatch(input, old(cursor) - 1).result
      ensures cursor == Dispatch(input, old(cursor) - 1).next
      ensures pos == ScanEndPos(input, cursor)
    {
      if c == '-' {
        token, err := ScanDash();
        return;
      }
      if c == '"' {
        Unread();
        token, err := ScanStringWord();
        return;
      }
      Unread();
      token, err := ScanWord();
    }
  }
}
