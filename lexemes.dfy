/** Where each kind of lexeme ends in the input, and the decoding of a
    quoted string literal. These are the specifications the scanner's loops
    are proved against. */
module Lexemes {
  import opened ConfigTokens

  /** Go's unicode.IsSpace: the Unicode White_Space characters. */
  predicate IsSpace(c: char) {
    || c == '\t' || c == '\n' || c == '\U{000B}' || c == '\U{000C}' || c == '\r' || c == ' '
    || c == '\U{0085}' || c == '\U{00A0}' || c == '\U{1680}'
    || ('\U{2000}' <= c <= '\U{200A}')
    || c == '\U{2028}' || c == '\U{2029}' || c == '\U{202F}' || c == '\U{205F}' || c == '\U{3000}'
  }

  /** Below U+0100, IsSpace is Go's Latin-1 rule: tab, newline, vertical
      tab, form feed, carriage return, space, NEL and no-break space. */
  lemma IsSpaceLatin1(c: char)
    requires c < '\U{0100}'
    ensures IsSpace(c) <==> c in "\t\n\U{000B}\U{000C}\r \U{0085}\U{00A0}"
  {
  }

  /** The end of the run of non-space characters starting at i. */
  function WordEnd(input: seq<char>, i: nat): (r: nat)
    requires i <= |input|
    ensures i <= r <= |input|
    ensures forall j :: i <= j < r ==> !IsSpace(input[j])
    ensures r == |input| || IsSpace(input[r])
    decreases |input| - i
  {
    if i == |input| || IsSpace(input[i]) then i else WordEnd(input, i + 1)
  }

  /** The index of the first newline at or after i, or the end of input. */
  function LineEnd(input: seq<char>, i: nat): (r: nat)
    requires i <= |input|
    ensures i <= r <= |input|
    ensures forall j :: i <= j < r ==> input[j] != '\n'
    ensures r == |input| || input[r] == '\n'
    decreases |input| - i
  {
    if i == |input| || input[i] == '\n' then i else LineEnd(input, i + 1)
  }

  /** The outcome of scanning white space: the blanks collected and the index
      the scan stopped at, or the failed one-character lookahead after a
      backslash that ends the input (the index is then past that backslash). */
  datatype WhiteSpaceRun = Stopped(value: string, end: nat) | PeekFailed(end: nat)

  /** The non-newline white-space characters of s, in order. */
  function Blanks(s: string): (r: string)
    ensures |r| <= |s|
  {
    if s == [] then []
    else (if IsSpace(s[0]) && s[0] != '\n' then [s[0]] else []) + Blanks(s[1..])
  }

  /** Whether input[j], inside the range [i, e), belongs to a white-space run:
      a blank, or either half of a backslash-newline continuation. */
  predicate InWhiteSpace(input: seq<char>, i: nat, e: nat, j: nat)
    requires i <= j < e <= |input|
  {
    || (IsSpace(input[j]) && input[j] != '\n')
    || (input[j] == '\\' && j + 1 < e && input[j + 1] == '\n')
    || (input[j] == '\n' && i < j && input[j - 1] == '\\')
  }

  /** Whether every character of input[i..e] belongs to a white-space run. */
  predicate AllInWhiteSpace(input: seq<char>, i: nat, e: nat)
    requires i <= e <= |input|
  {
    forall j :: i <= j < e ==> InWhiteSpace(input, i, e, j)
  }

  /** A run with the blanks b collected before it. */
  function PrependBlanks(b: string, r: WhiteSpaceRun): WhiteSpaceRun {
    match r
    case Stopped(v, e) => Stopped(b + v, e)
    case PeekFailed(e) => r
  }

  /** White space from index i: blanks are collected, a backslash directly
      followed by a newline is skipped together with the newline, and the run
      stops, without consuming it, at a newline, at a backslash not followed
      by a newline, or at any other non-space character. */
  function WhiteSpaceFrom(input: seq<char>, i: nat): (r: WhiteSpaceRun)
    requires i <= |input|
    ensures i <= r.end <= |input|
    decreases |input| - i
  {
    if i == |input| then Stopped([], i)
    else
      var c := input[i];
      if c == '\\' then
        if i + 1 == |input| then PeekFailed(i + 1)
        else if input[i + 1] == '\n' then WhiteSpaceFrom(input, i + 2)
        else Stopped([], i)
      else if c == '\n' || !IsSpace(c) then Stopped([], i)
      else PrependBlanks([c], WhiteSpaceFrom(input, i + 1))
  }

  /** Where a white-space run ends: it fails only on a backslash that ends
      the input; otherwise it stops at the end of input, a newline or a
      non-space character, and never before a backslash-newline pair, which
      it passes over. */
  lemma {:induction false} WhiteSpaceRunEnd(input: seq<char>, i: nat)
    requires i <= |input|
    ensures var r := WhiteSpaceFrom(input, i);
      && (r.PeekFailed? ==> r.end == |input| && i < r.end && input[r.end - 1] == '\\')
      && (r.Stopped? ==> r.end == |input| || input[r.end] == '\n' || !IsSpace(input[r.end]))
      && (r.Stopped? && r.end < |input| && input[r.end] == '\\' ==>
            r.end + 1 < |input| && input[r.end + 1] != '\n')
    decreases |input| - i
  {
    if i < |input| {
      var c := input[i];
      if c == '\\' && i + 1 < |input| && input[i + 1] == '\n' {
        WhiteSpaceRunEnd(input, i + 2);
      } else if c != '\\' && c != '\n' && IsSpace(c) {
        WhiteSpaceRunEnd(input, i + 1);
      }
    }
  }

  /** Every character a white-space run passes over is a blank or half of
      a continuation: up to where it stops, or, when it fails, up to the
      trailing backslash it reached. */
  lemma {:induction false} WhiteSpaceRunCovers(input: seq<char>, i: nat)
    requires i <= |input|
    ensures var r := WhiteSpaceFrom(input, i);
      && (r.Stopped? ==> AllInWhiteSpace(input, i, r.end))
      && (r.PeekFailed? ==> i < r.end && AllInWhiteSpace(input, i, r.end - 1))
    decreases |input| - i
  {
    if i < |input| {
      var c := input[i];
      if c == '\\' && i + 1 < |input| && input[i + 1] == '\n' {
        WhiteSpaceContinuation(input, i);
        WhiteSpaceRunCovers(input, i + 2);
        var r := WhiteSpaceFrom(input, i + 2);
        var e := if r.Stopped? then r.end else r.end - 1;
        if r.PeekFailed? {
          WhiteSpaceRunEnd(input, i + 2);
        }
        assert InWhiteSpace(input, i, e, i) && InWhiteSpace(input, i, e, i + 1);
        assert forall j :: i + 2 <= j < e ==>
          InWhiteSpace(input, i + 2, e, j) ==> InWhiteSpace(input, i, e, j);
      } else if c != '\\' && c != '\n' && IsSpace(c) {
        WhiteSpaceBlank(input, i);
        WhiteSpaceRunCovers(input, i + 1);
        var r := WhiteSpaceFrom(input, i + 1);
        var e := if r.Stopped? then r.end else r.end - 1;
        if r.PeekFailed? {
          WhiteSpaceRunEnd(input, i + 1);
        }
        assert InWhiteSpace(input, i, e, i);
        assert forall j :: i + 1 <= j < e ==>
          InWhiteSpace(input, i + 1, e, j) ==> InWhiteSpace(input, i, e, j);
      }
    }
  }

  /** The value of a white-space run is exactly the blanks it passed over. */
  lemma {:induction false} WhiteSpaceRunValue(input: seq<char>, i: nat)
    requires i <= |input|
    ensures var r := WhiteSpaceFrom(input, i);
      r.Stopped? ==> r.value == Blanks(input[i..r.end])
    decreases |input| - i
  {
    if i < |input| {
      var c := input[i];
      if c == '\\' && i + 1 < |input| && input[i + 1] == '\n' {
        WhiteSpaceRunValue(input, i + 2);
        var r := WhiteSpaceFrom(input, i + 2);
        if r.Stopped? {
          assert input[i..r.end][1..][1..] == input[i + 2..r.end];
        }
      } else if c != '\\' && c != '\n' && IsSpace(c) {
        WhiteSpaceRunValue(input, i + 1);
        var r := WhiteSpaceFrom(input, i + 1);
        if r.Stopped? {
          assert input[i..r.end][1..] == input[i + 1..r.end];
        }
      }
    }
  }

  /** One step of WhiteSpaceFrom: a blank joins the run. */
  lemma WhiteSpaceBlank(input: seq<char>, i: nat)
    requires i < |input| && IsSpace(input[i]) && input[i] != '\n'
    ensures WhiteSpaceFrom(input, i) == PrependBlanks([input[i]], WhiteSpaceFrom(input, i + 1))
  {
  }

  /** One step of WhiteSpaceFrom: a backslash-newline continuation is skipped. */
  lemma WhiteSpaceContinuation(input: seq<char>, i: nat)
    requires i + 1 < |input| && input[i] == '\\' && input[i + 1] == '\n'
    ensures WhiteSpaceFrom(input, i) == WhiteSpaceFrom(input, i + 2)
  {
  }

  /** Where WhiteSpaceFrom stops without collecting anything. */
  lemma WhiteSpaceStops(input: seq<char>, i: nat)
    requires i <= |input|
    requires || i == |input|
             || input[i] == '\n'
             || (!IsSpace(input[i]) && input[i] != '\\')
             || (input[i] == '\\' && i + 1 < |input| && input[i + 1] != '\n')
    ensures WhiteSpaceFrom(input, i) == Stopped([], i)
  {
  }

  lemma PrependBlanksAppend(a: string, b: string, r: WhiteSpaceRun)
    ensures PrependBlanks(a, PrependBlanks(b, r)) == PrependBlanks(a + b, r)
  {
    match r
    case Stopped(v, e) => assert a + (b + v) == (a + b) + v;
    case PeekFailed(e) =>
  }

  /** The index just past the closing quote of a string whose body starts at
      i, or None when the input ends first. A backslash escapes exactly the
      next character, so "\\" followed by a quote closes the string. */
  function ClosingQuote(input: seq<char>, i: nat, escaped: bool): (r: Option<nat>)
    requires i <= |input|
    ensures r.Some? ==> i < r.value <= |input| && input[r.value - 1] == '"'
    decreases |input| - i
  {
    if i == |input| then None
    else if input[i] == '"' && !escaped then Some(i + 1)
    else ClosingQuote(input, i + 1, input[i] == '\\' && !escaped)
  }

  /** The character an escape sequence stands for. */
  function Unescaped(c: char): char {
    if c == 'n' then '\n' else if c == 't' then '\t' else c
  }

  /** What one character of a literal's body contributes to its value: an
      escaped character stands for Unescaped(c), an unescaped backslash for
      nothing, any other character for itself. */
  function Decoded(c: char, escaped: bool): string {
    if escaped then [Unescaped(c)] else if c == '\\' then [] else [c]
  }

  /** Decodes the body of a string literal: a backslash that is not itself
      escaped is dropped and escapes the next character. */
  function Unescape(s: string, escaped: bool): string {
    if s == [] then []
    else Decoded(s[0], escaped) + Unescape(s[1..], !escaped && s[0] == '\\')
  }

  /** Whether str is wrapped in double quotes. */
  predicate IsQuoted(str: string) {
    |str| >= 2 && str[0] == '"' && str[|str| - 1] == '"'
  }

  /** The value of a quoted string literal, or an error when str is not one. */
  function DecodeStringWord(str: string): (r: Result<string>)
    ensures r.Ok? <==> IsQuoted(str)
    ensures r.Err? ==> r.msg == "Invalid string word: " + str
    ensures r.Ok? ==> |r.value| <= |str| - 2
  {
    if |str| < 2 || str[0] != '"' || str[|str| - 1] != '"' then Err("Invalid string word: " + str)
    else
      UnescapeLength(str[1..|str| - 1], false);
      Ok(Unescape(str[1..|str| - 1], false))
  }

  lemma {:induction false} UnescapeLength(s: string, escaped: bool)
    ensures |Unescape(s, escaped)| <= |s|
  {
    if s != [] {
      UnescapeLength(s[1..], !escaped && s[0] == '\\');
    }
  }

  lemma AppendAssoc(a: string, b: string, c: string)
    ensures (a + b) + c == a + (b + c)
  {
  }

  /** processStringWord: strips the quotes and decodes the escapes of a
      quoted literal; on a malformed literal it returns str and an error. */
  method ProcessStringWord(str: string) returns (word: string, err: Option<string>)
    ensures DecodeStringWord(str) == if err.None? then Ok(word) else Err(err.value)
    ensures err.Some? ==> word == str
  {
    if |str| < 2 || str[0] != '"' || str[|str| - 1] != '"' {
      return str, Some("Invalid string word: " + str);
    }
    var chars := str[1..|str| - 1];
    var buffer: string := [];
    var escape := false;
    for i := 0 to |chars|
      invariant buffer + Unescape(chars[i..], escape) == Unescape(chars, false)
    {
      var c := chars[i];
      assert chars[i..][1..] == chars[i + 1..];
      ghost var done, escaped := buffer, escape;
      if escape {
        if c == 'n' {
          buffer := buffer + ['\n'];
        } else if c == 't' {
          buffer := buffer + ['\t'];
        } else {
          buffer := buffer + [c];
        }
        escape := false;
      } else if c == '\\' {
        escape := true;
      } else {
        buffer := buffer + [c];
      }
      assert buffer == done + Decoded(c, escaped);
      AppendAssoc(done, Decoded(c, escaped), Unescape(chars[i + 1..], escape));
    }
    assert chars[|chars|..] == [];
    assert buffer + Unescape([], escape) == buffer;
    return buffer, None;
  }

  /** How a string is written inside a quoted literal: quote, backslash,
      newline and tab become escape sequences. */
  function EscapeChar(c: char): string {
    if c == '"' then ['\\', '"']
    else if c == '\\' then ['\\', '\\']
    else if c == '\n' then ['\\', 'n']
    else if c == '\t' then ['\\', 't']
    else [c]
  }

  function Escape(s: string): string {
    if s == [] then [] else EscapeChar(s[0]) + Escape(s[1..])
  }

  /** The literal whose value is s. */
  function Quote(s: string): string {
    ['"'] + Escape(s) + ['"']
  }

  lemma UnescapeEscapeChar(c: char, rest: string)
    ensures Unescape(EscapeChar(c) + rest, false) == [c] + Unescape(rest, false)
  {
    var e := EscapeChar(c);
    if |e| == 2 {
      assert (e + rest)[1..] == [e[1]] + rest;
      assert ([e[1]] + rest)[1..] == rest;
    } else {
      assert (e + rest)[1..] == rest;
    }
  }

  /** Decoding undoes escaping. */
  lemma {:induction false} UnescapeEscape(s: string)
    ensures Unescape(Escape(s), false) == s
  {
    if s != [] {
      UnescapeEscapeChar(s[0], Escape(s[1..]));
      UnescapeEscape(s[1..]);
    }
  }

  /** Round trip: the literal built by Quote decodes to the original string. */
  lemma DecodeQuote(s: string)
    ensures DecodeStringWord(Quote(s)) == Ok(s)
  {
    var q := Quote(s);
    assert q[1..|q| - 1] == Escape(s);
    UnescapeEscape(s);
  }

  /** An escaped character contains no unescaped quote and leaves the
      scan unescaped after it. */
  lemma ClosingQuoteSkipsEscapeChar(input: seq<char>, i: nat, c: char)
    requires i + |EscapeChar(c)| <= |input|
    requires input[i..i + |EscapeChar(c)|] == EscapeChar(c)
    ensures ClosingQuote(input, i, false) == ClosingQuote(input, i + |EscapeChar(c)|, false)
  {
    var e := EscapeChar(c);
    assert input[i] == e[0] by { assert input[i..i + |e|][0] == e[0]; }
    if |e| == 2 {
      assert input[i + 1] == e[1] by { assert input[i..i + |e|][1] == e[1]; }
    }
  }

  /** Extending a slice by one index appends that element. */
  lemma SliceExtend(input: seq<char>, lo: nat, hi: nat)
    requires lo <= hi < |input|
    ensures input[lo..hi + 1] == input[lo..hi] + [input[hi]]
  {
  }

  /** A slice that is a concatenation splits into slices of its parts. */
  lemma SplitSlice(input: seq<char>, lo: nat, hi: nat, a: string, b: string)
    requires lo <= hi <= |input| && input[lo..hi] == a + b
    ensures lo + |a| <= hi
    ensures input[lo..lo + |a|] == a && input[lo + |a|..hi] == b
  {
    assert input[lo..lo + |a|] == input[lo..hi][..|a|];
    assert input[lo + |a|..hi] == input[lo..hi][|a|..];
  }

  /** An escaped body contains no unescaped quote, so the string closes at
      the quote that follows it: the body occupies input[i..j] and the
      quote sits at j. */
  lemma {:induction false} ClosingQuoteAfterEscape(input: seq<char>, i: nat, j: nat, s: string)
    requires i <= j < |input|
    requires input[i..j] == Escape(s)
    requires input[j] == '"'
    ensures ClosingQuote(input, i, false) == Some(j + 1)
    decreases |s|
  {
    if s != [] {
      var e := EscapeChar(s[0]);
      assert Escape(s) == e + Escape(s[1..]);
      SplitSlice(input, i, j, e, Escape(s[1..]));
      ClosingQuoteSkipsEscapeChar(input, i, s[0]);
      ClosingQuoteAfterEscape(input, i + |e|, j, s[1..]);
    }
  }

  // ----- An independent description of where a quoted string closes -----

  /** The number of consecutive backslashes in input[lo..j] that end just
      before index j. */
  function BackslashRun(input: seq<char>, lo: nat, j: nat): (n: nat)
    requires lo <= j <= |input|
    ensures n <= j - lo
  {
    if j > lo && input[j - 1] == '\\' then 1 + BackslashRun(input, lo, j - 1) else 0
  }

  /** Whether the character at j is escaped, in a string body starting at lo:
      it follows an odd number of backslashes. */
  predicate EscapedAt(input: seq<char>, lo: nat, j: nat)
    requires lo <= j <= |input|
  {
    BackslashRun(input, lo, j) % 2 == 1
  }

  /** A quote at j that is not escaped. */
  predicate UnescapedQuote(input: seq<char>, lo: nat, j: nat)
    requires lo <= j < |input|
  {
    input[j] == '"' && !EscapedAt(input, lo, j)
  }

  /** The escape flag of the scan is exactly "follows an odd run of backslashes". */
  lemma EscapedAtStep(input: seq<char>, lo: nat, i: nat)
    requires lo <= i < |input|
    ensures EscapedAt(input, lo, i + 1) == (input[i] == '\\' && !EscapedAt(input, lo, i))
  {
  }

  /** From index i, with the escape flag EscapedAt gives there, ClosingQuote
      finds the first unescaped quote, or None when there is none. */
  lemma {:induction false} ClosingQuoteFrom(input: seq<char>, lo: nat, i: nat)
    requires lo <= i <= |input|
    ensures var r := ClosingQuote(input, i, EscapedAt(input, lo, i));
      && (r.Some? ==>
            && i < r.value && UnescapedQuote(input, lo, r.value - 1)
            && forall j :: i <= j < r.value - 1 ==> !UnescapedQuote(input, lo, j))
      && (r.None? ==> forall j :: i <= j < |input| ==> !UnescapedQuote(input, lo, j))
    decreases |input| - i
  {
    if i < |input| {
      var e := EscapedAt(input, lo, i);
      if !(input[i] == '"' && !e) {
        EscapedAtStep(input, lo, i);
        ClosingQuoteFrom(input, lo, i + 1);
        assert !UnescapedQuote(input, lo, i);
      }
    }
  }

  /** A string whose body starts at lo closes just after e exactly when the
      character before e is the first quote of the body that is not escaped
      by a backslash. */
  lemma ClosingQuoteIsFirstUnescapedQuote(input: seq<char>, lo: nat, e: nat)
    requires lo <= |input|
    ensures ClosingQuote(input, lo, false) == Some(e) <==> ClosesAt(input, lo, e)
  {
    ClosingQuoteFrom(input, lo, lo);
  }

  /** A string body starting at lo closes just after e: input[e - 1] is its
      first unescaped quote. */
  predicate ClosesAt(input: seq<char>, lo: nat, e: nat)
    requires lo <= |input|
  {
    && lo < e <= |input|
    && UnescapedQuote(input, lo, e - 1)
    && forall j :: lo <= j < e - 1 ==> !UnescapedQuote(input, lo, j)
  }

  /** A string body starting at lo that has no unescaped quote. */
  predicate NeverCloses(input: seq<char>, lo: nat)
    requires lo <= |input|
  {
    forall j :: lo <= j < |input| ==> !UnescapedQuote(input, lo, j)
  }

  /** A string never closes exactly when its body has no unescaped quote. */
  lemma ClosingQuoteNone(input: seq<char>, lo: nat)
    requires lo <= |input|
    ensures ClosingQuote(input, lo, false).None? <==> NeverCloses(input, lo)
  {
    ClosingQuoteFrom(input, lo, lo);
  }

  /** A backslash escapes exactly the next character: an escaped backslash
      followed by a quote leaves that quote unescaped, so it closes the string. */
  lemma EscapedBackslashThenQuote(input: seq<char>, lo: nat, i: nat)
    requires lo <= i && i + 2 < |input|
    requires input[i] == '\\' && input[i + 1] == '\\' && input[i + 2] == '"'
    requires !EscapedAt(input, lo, i)
    ensures UnescapedQuote(input, lo, i + 2)
  {
    EscapedAtStep(input, lo, i);
    EscapedAtStep(input, lo, i + 1);
  }

  /** An unescaped backslash followed by a quote escapes the quote, so it does
      not close the string. */
  lemma BackslashQuoteIsEscaped(input: seq<char>, lo: nat, i: nat)
    requires lo <= i && i + 1 < |input|
    requires input[i] == '\\' && input[i + 1] == '"'
    requires !EscapedAt(input, lo, i)
    ensures !UnescapedQuote(input, lo, i + 1)
  {
    EscapedAtStep(input, lo, i);
  }
}
