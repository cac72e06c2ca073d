/** Lexical tokens of the simplf language, as the parser hands them to both
    tree-walkers (simplf/Token.java). A token is an immutable value. */
module Tokens {

  /** The token kinds that the two tree-walkers inspect. The enumeration file
      itself is not part of this model; these are the kinds the core code and
      the parser name. */
  datatype TokenType =
    | Identifier | Or | And | Equal | BangEqual | EqualEqual
    | Greater | GreaterEqual | Less | LessEqual
    | Plus | Minus | Slash | Star | Bang | RightParen | Comma
  {
    /** The Java enum constant's name, which is what `toString` prints. */
    function Name(): string {
      match this
      case Identifier => "IDENTIFIER"
      case Or => "OR"
      case And => "AND"
      case Equal => "EQUAL"
      case BangEqual => "BANG_EQUAL"
      case EqualEqual => "EQUAL_EQUAL"
      case Greater => "GREATER"
      case GreaterEqual => "GREATER_EQUAL"
      case Less => "LESS"
      case LessEqual => "LESS_EQUAL"
      case Plus => "PLUS"
      case Minus => "MINUS"
      case Slash => "SLASH"
      case Star => "STAR"
      case Bang => "BANG"
      case RightParen => "RIGHT_PAREN"
      case Comma => "COMMA"
    }
  }

  /** The operators that both tree-walkers apply to numbers only: arithmetic
      other than `+`, and the comparisons. */
  predicate IsArithmeticOrComparison(kind: TokenType) {
    kind in {Minus, Star, Slash, Greater, GreaterEqual, Less, LessEqual}
  }

  /** The static types: CHAR, FLOAT and STRING come from type annotations,
      BOOL and NULL are produced by the type checker. */
  datatype DataType = Char | Float | String | Bool | Null
  {
    function Name(): string {
      match this
      case Char => "CHAR"
      case Float => "FLOAT"
      case String => "STRING"
      case Bool => "BOOL"
      case Null => "NULL"
    }
  }

  /** Java's 32-bit `int`, used for source positions. */
  newtype Int32 = x: int | -0x8000_0000 <= x < 0x8000_0000

  /** A token. `literal` is Java's `Object literal`: the parser stores the
      identifier text there for identifiers and `null` (None) for operators.
      `dataType` is None when the five-argument constructor was used. */
  datatype Token = Token(
    kind: TokenType,
    lexeme: string,
    literal: Option<string>,
    line: Int32,
    col: Int32,
    dataType: Option<DataType>)

  datatype Option<T> = None | Some(value: T)

  /** `new Token(type, lexeme, literal, line, col)`: records every argument and
      leaves `data_type` unset. */
  function NewToken(kind: TokenType, lexeme: string, literal: Option<string>, line: Int32, col: Int32): (t: Token)
    ensures t.kind == kind && t.lexeme == lexeme && t.literal == literal
    ensures t.line == line && t.col == col
    ensures t.dataType == None
  {
    Token(kind, lexeme, literal, line, col, None)
  }

  /** `new Token(type, lexeme, literal, line, col, data_type)`: the only
      constructor that records a static type. */
  function NewTypedToken(kind: TokenType, lexeme: string, literal: Option<string>, line: Int32, col: Int32,
                         dataType: DataType): (t: Token)
    ensures t.kind == kind && t.lexeme == lexeme && t.literal == literal
    ensures t.line == line && t.col == col
    ensures t.dataType == Some(dataType)
  {
    Token(kind, lexeme, literal, line, col, Some(dataType))
  }

  /** The number a string of decimal digits denotes, most significant first. */
  function DigitsValue(s: string): nat
    decreases |s|
  {
    if s == [] then 0
    else
      var d := (s[|s| - 1] as int) - ('0' as int);
      DigitsValue(s[..|s| - 1]) * 10 + (if 0 <= d then d else 0)
  }

  /** The number a decimal text with an optional leading minus sign denotes. */
  function SignedValue(s: string): int {
    if s != [] && s[0] == '-' then 0 - DigitsValue(s[1..]) else DigitsValue(s)
  }

  /** Decimal rendering of a natural number, most significant digit first:
      digits only, and they denote the number. */
  function NatText(n: nat): (s: string)
    ensures |s| > 0
    ensures forall i :: 0 <= i < |s| ==> '0' <= s[i] <= '9'
    ensures DigitsValue(s) == n
    decreases n
  {
    if n < 10 then [(('0' as int) + n) as char]
    else
      var front := NatText(n / 10);
      var s := front + [(('0' as int) + n % 10) as char];
      assert s[..|s| - 1] == front;
      s
  }

  /** `Integer.toString`: a minus sign, then the digits of the magnitude; the
      text denotes the number. */
  function IntText(i: Int32): (s: string)
    ensures |s| > 0
    ensures (s[0] == '-') <==> i < 0
    ensures SignedValue(s) == i as int
  {
    if i < 0 then
      var digits := NatText(-(i as int));
      assert ("-" + digits)[1..] == digits;
      "-" + digits
    else NatText(i as int)
  }

  /** How string concatenation renders a possibly-null string or type. */
  function LiteralText(literal: Option<string>): string {
    match literal
    case None => "null"
    case Some(s) => s
  }

  function DataTypeText(t: Option<DataType>): string {
    match t
    case None => "null"
    case Some(d) => d.Name()
  }

  /** Texts joined with a separator between neighbours. */
  function Join(parts: seq<string>, sep: string): string
    decreases |parts|
  {
    if parts == [] then "" else if |parts| == 1 then parts[0] else parts[0] + sep + Join(parts[1..], sep)
  }

  /** Six texts joined: the separator goes between each pair of neighbours. */
  lemma JoinSix(a: string, b: string, c: string, d: string, e: string, f: string, sep: string)
    ensures Join([a, b, c, d, e, f], sep) == a + sep + b + sep + c + sep + d + sep + e + sep + f
  {
    var p := [a, b, c, d, e, f];
    assert p[1..] == [b, c, d, e, f] && p[1..][1..] == [c, d, e, f] && p[1..][1..][1..] == [d, e, f];
    assert [d, e, f][1..] == [e, f] && [e, f][1..] == [f];
    assert Join([e, f], sep) == e + sep + f;
    assert Join([d, e, f], sep) == d + sep + (e + sep + f);
    assert Join([c, d, e, f], sep) == c + sep + (d + sep + (e + sep + f));
    assert Join([b, c, d, e, f], sep) == b + sep + (c + sep + (d + sep + (e + sep + f)));
  }

  /** `Token.toString`: the six fields in the order of the format (kind,
      lexeme, data type, literal, line, column), each rendered as string
      concatenation renders it, joined by ", " inside angle brackets. */
  function ToString(t: Token): (s: string)
    ensures s == "<" + Join([t.kind.Name(), t.lexeme, DataTypeText(t.dataType), LiteralText(t.literal),
                             IntText(t.line), IntText(t.col)], ", ") + ">"
    ensures |s| > |t.kind.Name()| + 3 && s[0] == '<' && s[|s| - 1] == '>'
    ensures s[1..1 + |t.kind.Name()| + 2] == t.kind.Name() + ", "
  {
    var inner := t.kind.Name() + ", " + t.lexeme + ", " + DataTypeText(t.dataType) + ", " + LiteralText(t.literal)
                 + ", " + IntText(t.line) + ", " + IntText(t.col);
    JoinSix(t.kind.Name(), t.lexeme, DataTypeText(t.dataType), LiteralText(t.literal), IntText(t.line), IntText(t.col), ", ");
    "<" + inner + ">"
  }
}
