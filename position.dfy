/** The scanner's line/column bookkeeping, stated as a function of the
    characters consumed so far. */
module ScanPosition {
  import opened ConfigTokens

  /** What reading one more character does to the position: after a
      newline it moves to column 1 of the next line, otherwise one column on. */
  function Advance(p: ConfigScannerPos, afterLineEnd: bool): ConfigScannerPos {
    if afterLineEnd then Pos(p.line + 1, 1) else Pos(p.line, p.col + 1)
  }

  /** The position after the first n characters of s have been read: the
      position of character n (1-based), and (1, 0) before anything is read. */
  function PosAt(s: seq<char>, n: nat): ConfigScannerPos
    requires n <= |s|
  {
    if n == 0 then Pos(1, 0)
    else Advance(PosAt(s, n - 1), n >= 2 && s[n - 2] == '\n')
  }

  /** The position once a scan that stopped at index n has read at least once:
      reading end of input before any character forces the column to 1. */
  function ScanEndPos(s: seq<char>, n: nat): (p: ConfigScannerPos)
    requires n <= |s|
  {
    if s == [] then Pos(1, 1) else PosAt(s, n)
  }

  /** Lexicographic order on positions. */
  predicate Before(a: ConfigScannerPos, b: ConfigScannerPos) {
    a.line < b.line || (a.line == b.line && a.col < b.col)
  }

  predicate AtOrBefore(a: ConfigScannerPos, b: ConfigScannerPos) {
    Before(a, b) || a == b
  }

  /** The index where the line holding s[m] begins: one past the last
      newline before m, or 0 when there is none. */
  function LineStart(s: seq<char>, m: nat): (r: nat)
    requires m <= |s|
    ensures r <= m
    ensures r > 0 ==> s[r - 1] == '\n'
    ensures forall j :: r <= j < m ==> s[j] != '\n'
  {
    if m == 0 then 0
    else if s[m - 1] == '\n' then m
    else LineStart(s, m - 1)
  }

  /** Independent description of PosAt: the line is one more than the number
      of newlines before the last character read, and the column counts the
      characters read since the start of that line. */
  lemma {:induction false} PosAtCounts(s: seq<char>, n: nat)
    requires 1 <= n <= |s|
    ensures PosAt(s, n).line == 1 + multiset(s[..n - 1])['\n']
    ensures PosAt(s, n).col == n - LineStart(s, n - 1)
  {
    if n >= 2 {
      PosAtCounts(s, n - 1);
      assert s[..n - 1] == s[..n - 2] + [s[n - 2]];
    }
  }

  /** Positions strictly increase as characters are read. */
  lemma {:induction false} PosAtIncreasing(s: seq<char>, m: nat, n: nat)
    requires m < n <= |s|
    ensures Before(PosAt(s, m), PosAt(s, n))
    decreases n - m
  {
    if m + 1 < n {
      PosAtIncreasing(s, m + 1, n);
    }
  }

  /** Lines are numbered from 1, and once a character has been read so are columns. */
  lemma {:induction false} PosAtBounds(s: seq<char>, n: nat)
    requires n <= |s|
    ensures PosAt(s, n).line >= 1
    ensures n >= 1 ==> PosAt(s, n).col >= 1
  {
    if n > 0 {
      PosAtBounds(s, n - 1);
    }
  }

  /** A position is at column 1 of a line after the first exactly when the
      character read before the last one is a newline; this is what lets a
      pushback decide whether it steps back across a line end. */
  lemma PosAtLineStart(s: seq<char>, n: nat)
    requires 1 <= n <= |s|
    ensures (PosAt(s, n).line > 1 && PosAt(s, n).col == 1) <==> (n >= 2 && s[n - 2] == '\n')
  {
    PosAtBounds(s, n - 1);
  }
}
