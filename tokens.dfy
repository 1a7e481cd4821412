/** Token types, positions and tokens produced by grv's config scanner,
    with token equality and the rendering of a set of token types as names. */
module ConfigTokens {

  datatype Option<T> = None | Some(value: T)

  datatype Result<T> = Ok(value: T) | Err(msg: string)

  /** The kind of one token. The source encodes each kind as one bit of an
      unsigned integer (CtkInvalid = 1, CtkWord = 2, ..., CtkEOF = 128). */
  datatype ConfigTokenType =
    | CtkInvalid
    | CtkWord
    | CtkOption
    | CtkWhiteSpace
    | CtkComment
    | CtkShellCommand
    | CtkTerminator
    | CtkEOF

  /** A 1-based line and column in the input. */
  datatype ConfigScannerPos = Pos(line: nat, col: nat)

  /** A token; `err` is the message of the token's error, if it has one. */
  datatype ConfigToken = ConfigToken(
    tokenType: ConfigTokenType,
    value: string,
    startPos: ConfigScannerPos,
    endPos: ConfigScannerPos,
    err: Option<string>)

  /** Field-wise token equality; a missing other token is never equal,
      and two errors are equal when their messages are. */
  function Equal(token: ConfigToken, other: Option<ConfigToken>): (r: bool)
    ensures r <==> other == Some(token)
  {
    match other
    case None => false
    case Some(o) =>
      && token.tokenType == o.tokenType
      && token.value == o.value
      && token.startPos == o.startPos
      && token.endPos == o.endPos
      && ((token.err.None? && o.err.None?) ||
          (token.err.Some? && o.err.Some? && token.err.value == o.err.value))
  }

  /** A set of token types as the source's bit mask. */
  type ConfigTokenMask = bv64

  /** One past the highest token-type bit. */
  const CtkCount: ConfigTokenMask := 256

  /** The number of token types. */
  const TypeCount: nat := 8

  /** The token type whose bit is bit number j (CtkInvalid is bit 0). */
  function TypeAt(j: nat): ConfigTokenType
    requires j < TypeCount
  {
    if j == 0 then CtkInvalid else if j == 1 then CtkWord else if j == 2 then CtkOption
    else if j == 3 then CtkWhiteSpace else if j == 4 then CtkComment
    else if j == 5 then CtkShellCommand else if j == 6 then CtkTerminator else CtkEOF
  }

  function TypeBit(t: ConfigTokenType): (b: ConfigTokenMask)
    ensures 0 < b < CtkCount
  {
    match t
    case CtkInvalid => 1
    case CtkWord => 2
    case CtkOption => 4
    case CtkWhiteSpace => 8
    case CtkComment => 16
    case CtkShellCommand => 32
    case CtkTerminator => 64
    case CtkEOF => 128
  }

  /** The display name of one token type (the source's configTokenNames table). */
  function TypeName(t: ConfigTokenType): string {
    match t
    case CtkInvalid => "Invalid"
    case CtkWord => "Word"
    case CtkOption => "Option"
    case CtkWhiteSpace => "White Space"
    case CtkComment => "Comment"
    case CtkShellCommand => "Shell Command"
    case CtkTerminator => "Terminator"
    case CtkEOF => "EOF"
  }

  /** Joins `parts` with `sep` between consecutive parts. */
  function Join(parts: seq<string>, sep: string): string
    decreases |parts|
  {
    if |parts| == 0 then ""
    else if |parts| == 1 then parts[0]
    else parts[0] + sep + Join(parts[1..], sep)
  }

  /** Whether the bit of `t` is set in `mask`. */
  predicate HasType(mask: ConfigTokenMask, t: ConfigTokenType) {
    TypeBit(t) & mask != 0
  }

  /** The names of the token types among TypeAt(0), ..., TypeAt(j - 1) whose bit is set
      in `mask`, in ascending bit order. */
  function SelectedNames(mask: ConfigTokenMask, j: nat): seq<string>
    requires j <= TypeCount
  {
    if j == 0 then []
    else SelectedNames(mask, j - 1) + (if HasType(mask, TypeAt(j - 1)) then [TypeName(TypeAt(j - 1))] else [])
  }

  /** The text ConfigTokenName renders for `mask`. */
  function TokenMaskName(mask: ConfigTokenMask): string {
    Join(SelectedNames(mask, TypeCount), " or ")
  }

  lemma NextTypeBit(j: nat)
    requires j < TypeCount
    ensures TypeBit(TypeAt(j)) << 1 == (if j + 1 < TypeCount then TypeBit(TypeAt(j + 1)) else CtkCount)
  {
    if j == 0 {} else if j == 1 {} else if j == 2 {} else if j == 3 {}
    else if j == 4 {} else if j == 5 {} else if j == 6 {} else {}
  }

  /** Renders the token types set in `tokenType` as their names joined by " or ",
      in ascending bit order; bits above CtkEOF are ignored. */
  method ConfigTokenName(tokenType: ConfigTokenMask) returns (name: string)
    ensures name == TokenMaskName(tokenType)
  {
    var tokens: seq<string> := [];
    var i: ConfigTokenMask := TypeBit(CtkInvalid);
    var j := 0;
    while i < CtkCount
      invariant j <= TypeCount
      invariant i == if j < TypeCount then TypeBit(TypeAt(j)) else CtkCount
      invariant tokens == SelectedNames(tokenType, j)
      decreases TypeCount - j
    {
      NextTypeBit(j);
      if i & tokenType != 0 {
        tokens := tokens + [TypeName(TypeAt(j))];
      }
      i := i << 1;
      j := j + 1;
    }
    name := Join(tokens, " or ");
  }

  lemma TypeNameInjective(u: ConfigTokenType, t: ConfigTokenType)
    ensures TypeName(u) == TypeName(t) <==> u == t
  {
    match u
    case CtkInvalid => {}
    case CtkWord => {}
    case CtkOption => {}
    case CtkWhiteSpace => {}
    case CtkComment => {}
    case CtkShellCommand => {}
    case CtkTerminator => {}
    case CtkEOF => {}
  }

  /** The bit number of a token type: the inverse of TypeAt. */
  function TypeIndex(t: ConfigTokenType): (j: nat)
    ensures j < TypeCount && TypeAt(j) == t
  {
    match t
    case CtkInvalid => 0
    case CtkWord => 1
    case CtkOption => 2
    case CtkWhiteSpace => 3
    case CtkComment => 4
    case CtkShellCommand => 5
    case CtkTerminator => 6
    case CtkEOF => 7
  }

  lemma {:induction false} SelectedNamesExactly(mask: ConfigTokenMask, j: nat, t: ConfigTokenType)
    requires j <= TypeCount
    ensures TypeName(t) in SelectedNames(mask, j) <==> TypeIndex(t) < j && HasType(mask, t)
  {
    if j > 0 {
      SelectedNamesExactly(mask, j - 1, t);
      var u := TypeAt(j - 1);
      TypeNameInjective(u, t);
      TypeAtInjective(j - 1, TypeIndex(t));
      var extra := if HasType(mask, u) then [TypeName(u)] else [];
      assert SelectedNames(mask, j) == SelectedNames(mask, j - 1) + extra;
      assert TypeName(t) in extra <==> u == t && HasType(mask, u);
    }
  }

  lemma TypeAtInjective(i: nat, j: nat)
    requires i < TypeCount && j < TypeCount
    ensures TypeAt(i) == TypeAt(j) <==> i == j
  {
  }

  /** The rendered names are exactly those of the token types whose bit is set. */
  lemma TokenMaskNameExactly(mask: ConfigTokenMask, t: ConfigTokenType)
    ensures TypeName(t) in SelectedNames(mask, TypeCount) <==> HasType(mask, t)
  {
    SelectedNamesExactly(mask, TypeCount, t);
  }

  lemma {:induction false} SingleTypeSelected(t: ConfigTokenType, j: nat)
    requires j <= TypeCount
    ensures SelectedNames(TypeBit(t), j) == if TypeIndex(t) < j then [TypeName(t)] else []
  {
    if j > 0 {
      SingleTypeSelected(t, j - 1);
      var u := TypeAt(j - 1);
      assert HasType(TypeBit(t), u) <==> u == t by {
        match u
        case CtkInvalid => {}
        case CtkWord => {}
        case CtkOption => {}
        case CtkWhiteSpace => {}
        case CtkComment => {}
        case CtkShellCommand => {}
        case CtkTerminator => {}
        case CtkEOF => {}
      }
      TypeAtInjective(j - 1, TypeIndex(t));
    }
  }

  /** A single token type renders as its own name. */
  lemma SingleTypeName(t: ConfigTokenType)
    ensures TokenMaskName(TypeBit(t)) == TypeName(t)
  {
    SingleTypeSelected(t, TypeCount);
  }

  /** Word and Option together render in ascending bit order. */
  lemma WordOrOptionName()
    ensures TokenMaskName(TypeBit(CtkWord) | TypeBit(CtkOption)) == "Word or Option"
  {
    var mask := TypeBit(CtkWord) | TypeBit(CtkOption);
    assert mask == 6;
    assert SelectedNames(mask, 1) == [];
    assert SelectedNames(mask, 3) == ["Word", "Option"];
    assert SelectedNames(mask, 8) == ["Word", "Option"] by {
      assert SelectedNames(mask, 4) == ["Word", "Option"];
      assert SelectedNames(mask, 5) == ["Word", "Option"];
      assert SelectedNames(mask, 6) == ["Word", "Option"];
      assert SelectedNames(mask, 7) == ["Word", "Option"];
    }
    assert Join(["Word", "Option"], " or ") == "Word" + " or " + "Option";
  }
}
