/** The tokens of C source, character by character: what the rules of the genksyms scanner match. */
module Lexemes {
  import opened Types

  // ----- Characters -----

  const TAB: Byte := 9
  const NEWLINE: Byte := 10
  const BLANK: Byte := 32
  const DOUBLE_QUOTE: Byte := 34
  const NUMBER_SIGN: Byte := 35
  const SINGLE_QUOTE: Byte := 39
  const PLUS: Byte := 43
  const MINUS: Byte := 45
  const POINT: Byte := 46
  const ZERO: Byte := 48
  const BACKSLASH: Byte := 92

  predicate Digit(b: Byte) {
    '0' as int <= b <= '9' as int
  }

  predicate OctalDigit(b: Byte) {
    '0' as int <= b <= '7' as int
  }

  predicate HexDigit(b: Byte) {
    Digit(b) || 'a' as int <= b <= 'f' as int || 'A' as int <= b <= 'F' as int
  }

  /** What a name starts with; the dollar sign is a letter to this scanner. */
  predicate Letter(b: Byte) {
    'a' as int <= b <= 'z' as int || 'A' as int <= b <= 'Z' as int || b == '_' as int || b == '$' as int
  }

  predicate Space(b: Byte) {
    b == BLANK || b == TAB
  }

  /** Blanks, tabs, vertical tabs, form feeds and carriage returns. */
  predicate White(b: Byte) {
    Space(b) || 11 <= b <= 13
  }

  /** An ASCII letter, in either case. */
  predicate Is(b: Byte, lower: char)
    requires 'a' <= lower <= 'z'
  {
    b == lower as int || b == lower as int - 32
  }

  // ----- Tokens -----

  predicate IsName(w: seq<Byte>) {
    w != [] && Letter(w[0]) && forall b :: b in w ==> Letter(b) || Digit(b)
  }

  predicate AreDigits(w: seq<Byte>) {
    w != [] && forall b :: b in w ==> Digit(b)
  }

  predicate IsOctal(w: seq<Byte>) {
    w != [] && w[0] == ZERO && forall b :: b in w ==> OctalDigit(b)
  }

  predicate IsDecimal(w: seq<Byte>) {
    AreDigits(w) && w[0] != ZERO
  }

  predicate IsHex(w: seq<Byte>) {
    |w| > 2 && w[0] == ZERO && Is(w[1], 'x') && forall b :: b in w[2..] ==> HexDigit(b)
  }

  predicate IsNumber(w: seq<Byte>) {
    IsOctal(w) || IsDecimal(w) || IsHex(w)
  }

  /** A number, perhaps with U, L, or both in either order behind it. */
  predicate IsInteger(w: seq<Byte>) {
    var n := |w|;
    || IsNumber(w)
    || (n > 0 && (Is(w[n - 1], 'u') || Is(w[n - 1], 'l')) && IsNumber(w[..n - 1]))
    || (n > 1 && Is(w[n - 2], 'u') && Is(w[n - 1], 'l') && IsNumber(w[..n - 2]))
    || (n > 1 && Is(w[n - 2], 'l') && Is(w[n - 1], 'u') && IsNumber(w[..n - 2]))
  }


  /** Digits with one point among them, before them or behind them. */
  predicate IsFraction(w: seq<Byte>) {
    |w| > 1 && exists i: nat :: i < |w| && PointAt(w, i)
  }

  /** All characters are digits but that at i, which is a point. */
  predicate PointAt(w: seq<Byte>, i: nat) {
    i < |w| && w[i] == POINT && forall j :: 0 <= j < |w| && j != i ==> Digit(w[j])
  }

  predicate IsExponent(w: seq<Byte>) {
    |w| > 1 && Is(w[0], 'e') &&
    (AreDigits(w[1..]) || ((w[1] == PLUS || w[1] == MINUS) && AreDigits(w[2..])))
  }

  /** Digits or a fraction, and an exponent. */
  predicate IsPower(w: seq<Byte>) {
    exists i :: 0 < i < |w| && (AreDigits(w[..i]) || IsFraction(w[..i])) && IsExponent(w[i..])
  }

  /** A fraction, or a number with an exponent, perhaps with F or L behind it. */
  predicate IsReal(w: seq<Byte>) {
    var n := |w|;
    || IsFraction(w) || IsPower(w)
    || (n > 0 && (Is(w[n - 1], 'f') || Is(w[n - 1], 'l')) && (IsFraction(w[..n - 1]) || IsPower(w[..n - 1])))
  }

  /** What may stand between quotes q: no quote, and no backslash but before another character; a
      backslash does not hide a newline. */
  predicate IsBody(q: Byte, w: seq<Byte>) {
    if w == [] then true
    else if w[0] == q then false
    else if w[0] == BACKSLASH then |w| > 1 && w[1] != NEWLINE && IsBody(q, w[2..])
    else IsBody(q, w[1..])
  }

  predicate IsPlainQuoted(q: Byte, w: seq<Byte>) {
    |w| > 1 && w[0] == q && w[|w| - 1] == q && IsBody(q, w[1..|w| - 1])
  }

  /** A string or a character constant, perhaps with an L before it. */
  predicate IsQuoted(q: Byte, w: seq<Byte>) {
    IsPlainQuoted(q, w) || (w != [] && w[0] == 'L' as int && IsPlainQuoted(q, w[1..]))
  }

  /** Operators of two characters; the others are two tokens. */
  predicate IsOperator(w: seq<Byte>) {
    |w| == 2 &&
    var a, b := w[0] as char, w[1] as char;
    || (b == '=' && a in {'~', '%', '^', '&', '*', '+', '=', '|', '<', '>', '/', '-'})
    || (a == b && a in {'&', '|', '<', '>'}) || (a == '-' && b == '>')
  }

  predicate IsDots(w: seq<Byte>) {
    |w| == 3 && forall b :: b in w ==> b == POINT
  }

  predicate AreWhite(w: seq<Byte>) {
    w != [] && forall b :: b in w ==> White(b)
  }

  predicate AreSpaces(w: seq<Byte>) {
    w != [] && forall b :: b in w ==> Space(b)
  }

  /** A line that starts with a number sign, with its newline. */
  predicate IsSignLine(w: seq<Byte>) {
    |w| > 1 && w[0] == NUMBER_SIGN && w[|w| - 1] == NEWLINE && NEWLINE !in w[..|w| - 1]
  }

  // A line marker: the sign, the line number and the quoted name of a file, with spaces between them.

  predicate IsSignGap(w: seq<Byte>) {
    |w| > 1 && w[0] == NUMBER_SIGN && AreSpaces(w[1..])
  }

  predicate IsLineNumber(w: seq<Byte>) {
    exists i :: 0 < i < |w| && IsSignGap(w[..i]) && IsInteger(w[i..])
  }

  predicate IsNumberGap(w: seq<Byte>) {
    exists i :: 0 < i < |w| && IsLineNumber(w[..i]) && AreSpaces(w[i..])
  }

  predicate IsMarkerHead(w: seq<Byte>) {
    exists i :: 0 < i < |w| && IsNumberGap(w[..i]) && IsFileName(w[i..])
  }

  predicate IsFileName(w: seq<Byte>) {
    && |w| > 2 && w[0] == DOUBLE_QUOTE && w[|w| - 1] == DOUBLE_QUOTE
    && DOUBLE_QUOTE !in w[1..|w| - 1] && NEWLINE !in w[1..|w| - 1]
  }

  /** That, and the rest of the line with its newline. */
  predicate IsMarker(w: seq<Byte>) {
    w != [] && w[|w| - 1] == NEWLINE &&
    exists i: nat :: i < |w| && IsMarkerHead(w[..i]) && NEWLINE !in w[i..|w| - 1]
  }

  // ----- Rules -----

  /** Whether the text w is matched by a rule, at the start of a line or not. */
  predicate Language(rule: nat, bol: bool, w: seq<Byte>) {
    match rule
    case 1 => bol && IsMarker(w)
    case 2 => bol && IsSignLine(w)
    case 3 => |w| == 1 && w[0] == NEWLINE
    case 4 => AreWhite(w)
    case 5 => IsQuoted(DOUBLE_QUOTE, w)
    case 6 => IsQuoted(SINGLE_QUOTE, w)
    case 7 => IsName(w)
    case 8 => IsOperator(w)
    case 9 => IsInteger(w)
    case 10 => IsReal(w)
    case 11 => IsDots(w)
    case 12 => |w| == 1 && w[0] != NEWLINE
    case _ => false
  }
}
