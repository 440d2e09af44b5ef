/** The tokens of C source read from left to right: how far a text has come in each rule, and the
    proof that this decides which rules match it. */
module LexemePhases {
  import opened Lexemes
  import opened Types
  import opened Wrappers

  /** How far a text has come in a number: behind a zero, in octal or decimal digits, behind 0x, in
      hexadecimal digits, behind U, behind L, behind both. */
  datatype Part = Zero | Octal | HexStart | Hex | Decimal | BehindU | BehindL | BehindBoth

  /** How far a text has come in a rule. */
  datatype Phase =
    | Dead | Fresh | Done
    | Number(part: Part)
    | Sign | SignGap | MarkerNumber(part: Part) | NameGap | NameStart | Name | Tail
    | Prefix | Body | Escape
    | Inside
    | Operator(second: Byte)
    | Digits | Point | Fraction | ExponentStart | ExponentSign | Power
    | Dots(n: nat)

  function BehindNumber(b: Byte): Option<Part> {
    if Is(b, 'u') then Some(BehindU) else if Is(b, 'l') then Some(BehindL) else None
  }

  /** A number, or its suffix, goes on. */
  function NextPart(p: Part, b: Byte): Option<Part> {
    match p
    case Zero => if OctalDigit(b) then Some(Octal) else if Is(b, 'x') then Some(HexStart) else BehindNumber(b)
    case Octal => if OctalDigit(b) then Some(Octal) else BehindNumber(b)
    case HexStart => if HexDigit(b) then Some(Hex) else None
    case Hex => if HexDigit(b) then Some(Hex) else BehindNumber(b)
    case Decimal => if Digit(b) then Some(Decimal) else BehindNumber(b)
    case BehindU => if Is(b, 'l') then Some(BehindBoth) else None
    case BehindL => if Is(b, 'u') then Some(BehindBoth) else None
    case BehindBoth => None
  }

  function FirstPart(b: Byte): Option<Part> {
    if b == ZERO then Some(Zero) else if Digit(b) then Some(Decimal) else None
  }

  function NextNumber(p: Phase, b: Byte): Phase {
    var n := if p == Fresh then FirstPart(b) else if p.Number? then NextPart(p.part, b) else None;
    if n.Some? then Number(n.value) else Dead
  }

  function NextMarker(p: Phase, b: Byte): Phase {
    match p
    case Fresh => if b == NUMBER_SIGN then Sign else Dead
    case Sign => if Space(b) then SignGap else Dead
    case SignGap =>
      if Space(b) then SignGap else if FirstPart(b).Some? then MarkerNumber(FirstPart(b).value) else Dead
    case MarkerNumber(n) =>
      if n != HexStart && Space(b) then NameGap
      else if NextPart(n, b).Some? then MarkerNumber(NextPart(n, b).value) else Dead
    case NameGap => if Space(b) then NameGap else if b == DOUBLE_QUOTE then NameStart else Dead
    case NameStart => if b != DOUBLE_QUOTE && b != NEWLINE then Name else Dead
    case Name => if b == DOUBLE_QUOTE then Tail else if b != NEWLINE then Name else Dead
    case Tail => if b == NEWLINE then Done else Tail
    case _ => Dead
  }

  function NextQuoted(q: Byte, p: Phase, b: Byte): Phase {
    match p
    case Fresh => if b == q then Body else if b == 'L' as int then Prefix else Dead
    case Prefix => if b == q then Body else Dead
    case Body => if b == q then Done else if b == BACKSLASH then Escape else Body
    case Escape => if b == NEWLINE then Dead else Body
    case _ => Dead
  }

  function NextOperator(p: Phase, b: Byte): Phase {
    match p
    case Fresh =>
      var c := b as char;
      if c in {'~', '%', '^', '*', '+', '=', '/'} then Operator('=' as int)
      else if c in {'&', '|', '<', '>'} then Operator(b)
      else if c == '-' then Operator('>' as int) else Dead
    case Operator(second) => if b == second || b == '=' as int then Done else Dead
    case _ => Dead
  }

  function NextReal(p: Phase, b: Byte): Phase {
    match p
    case Fresh => if Digit(b) then Digits else if b == POINT then Point else Dead
    case Digits => if Digit(b) then Digits else if b == POINT then Fraction else if Is(b, 'e') then ExponentStart
        else Dead
    case Point => if Digit(b) then Fraction else Dead
    case Fraction =>
      if Digit(b) then Fraction else if Is(b, 'e') then ExponentStart else if Is(b, 'f') || Is(b, 'l') then Done
          else Dead
    case ExponentStart => if Digit(b) then Power else if b == PLUS || b == MINUS then ExponentSign else Dead
    case ExponentSign => if Digit(b) then Power else Dead
    case Power => if Digit(b) then Power else if Is(b, 'f') || Is(b, 'l') then Done else Dead
    case _ => Dead
  }

  /** The phase of a rule after one more character. */
  function Next(rule: nat, p: Phase, b: Byte): Phase {
    match rule
    case 1 => NextMarker(p, b)
    case 2 => if p == Fresh && b == NUMBER_SIGN then Sign else if p != Sign then Dead
        else if b == NEWLINE then Done else Sign
    case 3 => if p == Fresh && b == NEWLINE then Done else Dead
    case 4 => if (p == Fresh || p == Inside) && White(b) then Inside else Dead
    case 5 => NextQuoted(DOUBLE_QUOTE, p, b)
    case 6 => NextQuoted(SINGLE_QUOTE, p, b)
    case 7 => if (p == Fresh && Letter(b)) || (p == Inside && (Letter(b) || Digit(b))) then Inside else Dead
    case 8 => NextOperator(p, b)
    case 9 => NextNumber(p, b)
    case 10 => NextReal(p, b)
    case 11 => if b != POINT then Dead else if p == Fresh then Dots(1) else if p == Dots(1) then Dots(2)
        else if p == Dots(2) then Done else Dead
    case 12 => if p == Fresh && b != NEWLINE then Done else Dead
    case _ => Dead
  }

  /** In this phase the rule matches what has been read. */
  predicate Matched(p: Phase) {
    p == Done || p == Inside || p == Fraction || p == Power || (p.Number? && p.part != HexStart)
  }

  /** Line markers are matched at the start of a line only. */
  function First(rule: nat, bol: bool): Phase {
    if rule <= 2 && !bol then Dead else Fresh
  }

  function PhaseOf(rule: nat, bol: bool, w: seq<Byte>): Phase {
    if w == [] then First(rule, bol) else Next(rule, PhaseOf(rule, bol, w[..|w| - 1]), w[|w| - 1])
  }

  lemma PhaseStart(rule: nat, bol: bool)
    ensures PhaseOf(rule, bol, []) == First(rule, bol)
  {
  }

  lemma PhaseStep(rule: nat, bol: bool, w: seq<Byte>)
    requires w != []
    ensures PhaseOf(rule, bol, w) == Next(rule, PhaseOf(rule, bol, w[..|w| - 1]), w[|w| - 1])
  {
  }

  // ----- Names, white space, newlines, single characters, dots, operators and lines -----

  /** After the first character these two rules match it, or nothing. */
  lemma {:induction false} SinglePhases(rule: nat, bol: bool, w: seq<Byte>)
    requires rule == 3 || rule == 12
    ensures PhaseOf(rule, bol, w) ==
            if |w| == 0 then Fresh else if |w| == 1 && (w[0] == NEWLINE) == (rule == 3) then Done else Dead
  {
    hide PhaseOf;
    PhaseStart(rule, bol);
    if |w| > 0 {
      PhaseStep(rule, bol, w);
      SinglePhases(rule, bol, w[..|w| - 1]);
    }
  }

  lemma {:induction false} WhitePhases(bol: bool, w: seq<Byte>)
    ensures PhaseOf(4, bol, w) == if w == [] then Fresh else if AreWhite(w) then Inside else Dead
  {
    hide PhaseOf;
    PhaseStart(4, bol);
    if w != [] {
      PhaseStep(4, bol, w);
      WhitePhases(bol, w[..|w| - 1]);
    }
  }

  lemma {:induction false} NamePhases(bol: bool, w: seq<Byte>)
    ensures PhaseOf(7, bol, w) == if w == [] then Fresh else if IsName(w) then Inside else Dead
  {
    hide PhaseOf;
    PhaseStart(7, bol);
    if w != [] {
      PhaseStep(7, bol, w);
      NamePhases(bol, w[..|w| - 1]);
    }
  }

  predicate ArePoints(w: seq<Byte>) {
    forall b :: b in w ==> b == POINT
  }

  lemma PointsGrow(v: seq<Byte>, b: Byte)
    ensures ArePoints(v + [b]) <==> ArePoints(v) && b == POINT
  {
    assert b in v + [b] && forall c :: c in v ==> c in v + [b];
  }

  lemma {:induction false} DotPhases(bol: bool, w: seq<Byte>)
    ensures PhaseOf(11, bol, w) ==
            if |w| == 0 then Fresh else if |w| > 3 || !ArePoints(w) then Dead else if |w| == 3 then Done else Dots(|w|)
  {
    hide PhaseOf;
    PhaseStart(11, bol);
    if |w| > 0 {
      PhaseStep(11, bol, w);
      var v, b := w[..|w| - 1], w[|w| - 1];
      DotPhases(bol, v);
      assert w == v + [b];
      PointsGrow(v, b);
    }
  }

  lemma {:induction false} OperatorPhases(bol: bool, w: seq<Byte>)
    ensures w == [] ==> PhaseOf(8, bol, w) == Fresh
    ensures |w| == 1 ==> PhaseOf(8, bol, w) == NextOperator(Fresh, w[0])
    ensures PhaseOf(8, bol, w) == Done <==> IsOperator(w)
    ensures |w| > 1 ==> PhaseOf(8, bol, w) == Done || PhaseOf(8, bol, w) == Dead
  {
    hide PhaseOf;
    PhaseStart(8, bol);
    if w != [] {
      PhaseStep(8, bol, w);
      OperatorPhases(bol, w[..|w| - 1]);
    }
  }

  lemma {:induction false} LinePhases(w: seq<Byte>)
    ensures PhaseOf(2, true, w) ==
            if w == [] then Fresh else if w[0] != NUMBER_SIGN then Dead else if NEWLINE !in w then Sign
            else if IsSignLine(w) then Done else Dead
  {
    hide PhaseOf, IsSignLine;
    PhaseStart(2, true);
    if w != [] {
      PhaseStep(2, true, w);
      LinePhases(w[..|w| - 1]);
      assert w == w[..|w| - 1] + [w[|w| - 1]];
      SignLineGrows(w[..|w| - 1], w[|w| - 1]);
    }
  }

  lemma SignLineGrows(v: seq<Byte>, b: Byte)
    ensures IsSignLine(v + [b]) <==> v != [] && v[0] == NUMBER_SIGN && NEWLINE !in v && b == NEWLINE
    ensures NEWLINE in v + [b] <==> NEWLINE in v || b == NEWLINE
    ensures (v + [b])[0] == if v == [] then b else v[0]
  {
    assert (v + [b])[..|v|] == v;
  }

  lemma {:induction false} DeadStays(rule: nat, w: seq<Byte>)
    requires rule <= 2
    ensures PhaseOf(rule, false, w) == Dead
  {
    if w != [] {
      DeadStays(rule, w[..|w| - 1]);
    }
  }

  // ----- Numbers -----

  /** The text leads this far into a number. */
  predicate InNumber(p: Part, w: seq<Byte>) {
    var n := |w|;
    match p
    case Zero => w == [ZERO]
    case Octal => n > 1 && IsOctal(w)
    case HexStart => n == 2 && w[0] == ZERO && Is(w[1], 'x')
    case Hex => IsHex(w)
    case Decimal => IsDecimal(w)
    case BehindU => n > 0 && Is(w[n - 1], 'u') && IsNumber(w[..n - 1])
    case BehindL => n > 0 && Is(w[n - 1], 'l') && IsNumber(w[..n - 1])
    case BehindBoth =>
      n > 1 && IsNumber(w[..n - 2]) &&
      ((Is(w[n - 2], 'u') && Is(w[n - 1], 'l')) || (Is(w[n - 2], 'l') && Is(w[n - 1], 'u')))
  }

  lemma {:induction false} NumberGrows(v: seq<Byte>, b: Byte)
    ensures IsOctal(v + [b]) <==> if v == [] then b == ZERO else IsOctal(v) && OctalDigit(b)
    ensures IsDecimal(v + [b]) <==> if v == [] then Digit(b) && b != ZERO else IsDecimal(v) && Digit(b)
    ensures IsHex(v + [b]) <==> HexDigit(b) && (InNumber(HexStart, v) || IsHex(v))
  {
    var w := v + [b];
    if |v| > 1 {
      assert w[2..] == v[2..] + [b];
    }
  }

  /** A part of a number behind one more character. */
  /** One character more leads from part to part. */
  lemma {:induction false} NumberOn(q: Part, p: Part, v: seq<Byte>, b: Byte)
    requires InNumber(q, v) && NextPart(q, b) == Some(p)
    ensures InNumber(p, v + [b])
  {
    var w := v + [b];
    NumberGrows(v, b);
    assert w[..|v|] == v;
    if v != [] {
      assert w[..|w| - 2] == v[..|v| - 1] && w[|w| - 2] == v[|v| - 1];
    }
  }

  lemma {:induction false} NumberBack(p: Part, v: seq<Byte>, b: Byte) returns (q: Part)
    requires InNumber(p, v + [b]) && v != []
    ensures InNumber(q, v) && NextPart(q, b) == Some(p)
  {
    var w := v + [b];
    NumberGrows(v, b);
    assert w[..|v|] == v && w[..|w| - 2] == v[..|v| - 1] && w[|w| - 2] == v[|v| - 1];
    q := if p == Octal then if |v| == 1 then Zero else Octal
         else if p == Hex then if IsHex(v) then Hex else HexStart
         else if p == BehindBoth then if Is(b, 'l') then BehindU else BehindL
         else if p == HexStart then Zero
         else if v == [ZERO] then Zero else if IsOctal(v) then Octal else if IsHex(v) then Hex else Decimal;
  }

  lemma {:induction false} NumberStarts(p: Part, b: Byte)
    ensures InNumber(p, [] + [b]) <==> FirstPart(b) == Some(p)
    ensures forall q :: !InNumber(q, [])
  {
    NumberGrows([], b);
  }

  lemma {:induction false} NumberStep(p: Part, v: seq<Byte>, b: Byte)
    ensures InNumber(p, v + [b]) <==>
      (v == [] && FirstPart(b) == Some(p)) || exists q :: InNumber(q, v) && NextPart(q, b) == Some(p)
  {
    hide InNumber, NextPart, FirstPart;
    forall q | InNumber(q, v) && NextPart(q, b) == Some(p) ensures InNumber(p, v + [b]) {
      NumberOn(q, p, v, b);
    }
    if v == [] {
      NumberStarts(p, b);
    } else if InNumber(p, v + [b]) {
      var q := NumberBack(p, v, b);
    }
  }

  lemma {:induction false} NumberPhases(bol: bool, w: seq<Byte>)
    ensures forall p :: PhaseOf(9, bol, w) == Number(p) <==> InNumber(p, w)
    ensures PhaseOf(9, bol, w) == Fresh <==> w == []
    ensures PhaseOf(9, bol, w) != Fresh && !PhaseOf(9, bol, w).Number? ==> PhaseOf(9, bol, w) == Dead
  {
    hide NextMarker, NextQuoted, NextOperator, NextReal;
    hide PhaseOf;
    PhaseStart(9, bol);
    if w != [] {
      PhaseStep(9, bol, w);
      var v, b := w[..|w| - 1], w[|w| - 1];
      assert w == v + [b];
      NumberPhases(bol, v);
      NumberGrows(v, b);
      forall p ensures PhaseOf(9, bol, w) == Number(p) <==> InNumber(p, w) {
        NumberStep(p, v, b);
      }
    }
  }

  // ----- Numbers with a point or an exponent -----

  predicate IsMantissa(w: seq<Byte>) {
    AreDigits(w) || IsFraction(w)
  }

  /** The text leads to this phase of the rule. */
  predicate InReal(p: Phase, w: seq<Byte>) {
    var n := |w|;
    match p
    case Fresh => w == []
    case Digits => AreDigits(w)
    case Point => w == [POINT]
    case Fraction => IsFraction(w)
    case ExponentStart => n > 0 && Is(w[n - 1], 'e') && IsMantissa(w[..n - 1])
    case ExponentSign => n > 1 && (w[n - 1] == PLUS || w[n - 1] == MINUS) && Is(w[n - 2], 'e') && IsMantissa(w[..n - 2])
    case Power => IsPower(w)
    case Done => n > 0 && (Is(w[n - 1], 'f') || Is(w[n - 1], 'l')) && (IsFraction(w[..n - 1]) || IsPower(w[..n - 1]))
    case _ => false
  }

  lemma {:induction false} DigitsGrow(v: seq<Byte>, b: Byte)
    ensures AreDigits(v + [b]) <==> Digit(b) && (v == [] || AreDigits(v))
  {
    assert b in v + [b] && forall c :: c in v ==> c in v + [b];
  }

  lemma {:induction false} PointGrows(v: seq<Byte>, b: Byte, i: nat)
    ensures PointAt(v + [b], i) <==>
            if i == |v| then b == POINT && (v == [] || AreDigits(v)) else Digit(b) && PointAt(v, i)
  {
    var w := v + [b];
    assert w[|v|] == b && forall j :: 0 <= j < |v| ==> w[j] == v[j] && v[j] in v;
  }

  lemma {:induction false} FractionGrows(v: seq<Byte>, b: Byte)
    ensures IsFraction(v + [b]) <==> (b == POINT && AreDigits(v)) || (Digit(b) && (v == [POINT] || IsFraction(v)))
  {
    hide AreDigits;
    var w := v + [b];
    if IsFraction(w) {
      var i: nat :| PointAt(w, i);
      PointGrows(v, b, i);
    }
    if b == POINT && AreDigits(v) {
      PointGrows(v, b, |v|);
      assert PointAt(w, |v|) && v != [] by { MantissaFacts(); }
    }
    if Digit(b) && (v == [POINT] || IsFraction(v)) {
      var i: nat := 0;
      if IsFraction(v) {
        i :| PointAt(v, i);
      }
      assert PointAt(v, i);
      PointGrows(v, b, i);
      assert |w| > 1 && PointAt(w, i);
    }
  }

  lemma {:induction false} ExponentGrows(v: seq<Byte>, b: Byte)
    ensures IsExponent(v + [b]) <==>
      Digit(b) && (IsExponent(v) || (|v| == 1 && Is(v[0], 'e')) ||
          (|v| == 2 && Is(v[0], 'e') && (v[1] == PLUS || v[1] == MINUS)))
  {
    var w := v + [b];
    if |v| > 0 {
      assert w[1..] == v[1..] + [b];
      DigitsGrow(v[1..], b);
    }
    if |v| > 1 {
      assert w[2..] == v[2..] + [b];
      DigitsGrow(v[2..], b);
    }
  }

  lemma {:induction false} CutGrows(v: seq<Byte>, b: Byte, i: nat)
    requires i <= |v|
    ensures var w := v + [b];
            w[..i] == v[..i] &&
            (IsExponent(w[i..]) <==>
             Digit(b) && (IsExponent(v[i..]) || (i == |v| - 1 && Is(v[i], 'e')) ||
               (i == |v| - 2 && Is(v[i], 'e') && (v[i + 1] == PLUS || v[i + 1] == MINUS))))
  {
    hide IsExponent;
    assert (v + [b])[i..] == v[i..] + [b];
    ExponentGrows(v[i..], b);
  }

  lemma {:induction false} PowerGrows(v: seq<Byte>, b: Byte)
    ensures IsPower(v + [b]) <==> Digit(b) && (IsPower(v) || InReal(ExponentStart, v) || InReal(ExponentSign, v))
  {
    hide IsExponent, IsFraction, AreDigits;
    var w := v + [b];
    MantissaFacts();
    if Digit(b) && (IsPower(v) || InReal(ExponentStart, v) || InReal(ExponentSign, v)) {
      var i: nat;
      if IsPower(v) {
        i :| 0 < i < |v| && (AreDigits(v[..i]) || IsFraction(v[..i])) && IsExponent(v[i..]);
      } else {
        i := if InReal(ExponentStart, v) then |v| - 1 else |v| - 2;
        assert IsMantissa(v[..i]);
      }
      CutGrows(v, b, i);
      assert 0 < i < |w| && (AreDigits(w[..i]) || IsFraction(w[..i])) && IsExponent(w[i..]);
    }
    if IsPower(w) {
      var i: nat :| 0 < i < |w| && (AreDigits(w[..i]) || IsFraction(w[..i])) && IsExponent(w[i..]);
      CutGrows(v, b, i);
      assert v[|v|..] == [];
      assert i < |v| && (AreDigits(v[..i]) || IsFraction(v[..i]));
    }
  }

  lemma MantissaFacts()
    ensures !IsExponent([]) && !IsMantissa([]) && !AreDigits([]) && !IsFraction([])
  {
  }

  lemma {:induction false} RealPhases(bol: bool, w: seq<Byte>)
    ensures InReal(PhaseOf(10, bol, w), w) || PhaseOf(10, bol, w) == Dead
    ensures forall p :: InReal(p, w) ==> PhaseOf(10, bol, w) == p
  {
    hide NextMarker, NextQuoted, NextOperator, NextNumber;
    hide PhaseOf;
    PhaseStart(10, bol);
    if w != [] {
      PhaseStep(10, bol, w);
      var v, b := w[..|w| - 1], w[|w| - 1];
      assert w == v + [b];
      RealPhases(bol, v);
      RealStep(v, b);
    }
  }

  /** The phase of a text behind one more character. */
  lemma {:induction false} RealStep(v: seq<Byte>, b: Byte)
    ensures forall p, q :: InReal(q, v) && NextReal(q, b) == p != Dead ==> InReal(p, v + [b])
    ensures forall p :: InReal(p, v + [b]) ==> exists q :: InReal(q, v) && NextReal(q, b) == p
  {
    hide IsExponent, IsFraction, AreDigits, IsPower;
    var w := v + [b];
    DigitsGrow(v, b);
    FractionGrows(v, b);
    PowerGrows(v, b);
    assert w[..|v|] == v;
    if v != [] {
      assert w[..|w| - 2] == v[..|v| - 1] && w[|w| - 2] == v[|v| - 1];
    }
    forall p | InReal(p, w) ensures exists q :: InReal(q, v) && NextReal(q, b) == p {
      var q :=
        if p == Digits then if v == [] then Fresh else Digits
        else if p == Point then Fresh
        else if p == Fraction then if b == POINT then Digits else if v == [POINT] then Point else Fraction
        else if p == ExponentStart then if AreDigits(v) then Digits else Fraction
        else if p == ExponentSign then ExponentStart
        else if p == Power then if IsPower(v) then Power else if InReal(ExponentStart, v) then ExponentStart
            else ExponentSign
        else if IsFraction(v) then Fraction else Power;
      assert InReal(q, v) && NextReal(q, b) == p;
    }
  }

  // ----- Strings and character constants -----

  /** An opening quote, perhaps with an L before it, and what may stand behind it. */
  predicate IsOpened(q: Byte, w: seq<Byte>) {
    || (w != [] && w[0] == q && IsBody(q, w[1..]))
    || (|w| > 1 && w[0] == 'L' as int && w[1] == q && IsBody(q, w[2..]))
  }

  predicate InQuoted(q: Byte, p: Phase, w: seq<Byte>) {
    match p
    case Fresh => w == []
    case Prefix => w == ['L' as int]
    case Body => IsOpened(q, w)
    case Escape => w != [] && w[|w| - 1] == BACKSLASH && IsOpened(q, w[..|w| - 1])
    case Done => IsQuoted(q, w)
    case _ => false
  }

  lemma {:induction false} BodyGrows(q: Byte, v: seq<Byte>, b: Byte)
    requires q != BACKSLASH
    ensures IsBody(q, v + [b]) <==>
      || (IsBody(q, v) && b != q && b != BACKSLASH)
      || (v != [] && v[|v| - 1] == BACKSLASH && b != NEWLINE && IsBody(q, v[..|v| - 1]))
    decreases |v|
  {
    var w := v + [b];
    if v != [] && v[0] != q {
      if v[0] != BACKSLASH {
        assert w[1..] == v[1..] + [b];
        assert |v| > 1 ==> v[..|v| - 1][1..] == v[1..][..|v| - 2];
        BodyGrows(q, v[1..], b);
      } else if |v| > 1 {
        assert w[2..] == v[2..] + [b];
        assert |v| > 2 ==> v[..|v| - 1][2..] == v[2..][..|v| - 3];
        BodyGrows(q, v[2..], b);
      }
    }
  }

  /** The same of what stands behind the first i characters. */
  lemma {:induction false} BodyGrowsFrom(q: Byte, v: seq<Byte>, b: Byte, i: nat)
    requires q != BACKSLASH && i <= |v|
    ensures IsBody(q, (v + [b])[i..]) <==>
      || (IsBody(q, v[i..]) && b != q && b != BACKSLASH)
      || (i < |v| && v[|v| - 1] == BACKSLASH && b != NEWLINE && IsBody(q, v[..|v| - 1][i..]))
  {
    hide IsBody;
    assert (v + [b])[i..] == v[i..] + [b];
    assert i < |v| ==> v[..|v| - 1][i..] == v[i..][..|v| - 1 - i] && v[i..][|v| - 1 - i] == v[|v| - 1];
    BodyGrows(q, v[i..], b);
  }

  lemma {:induction false} OpenedGrows(q: Byte, v: seq<Byte>, b: Byte)
    requires q != BACKSLASH && q != 'L' as int
    ensures IsOpened(q, v + [b]) <==>
      || (IsOpened(q, v) && b != q && b != BACKSLASH) || (InQuoted(q, Escape, v) && b != NEWLINE)
      || (b == q && (v == [] || v == ['L' as int]))
  {
    hide IsBody;
    NothingInBody(q);
    assert |v| == 0 ==> (v + [b])[1..] == [];
    assert |v| == 1 ==> (v + [b])[2..] == [];
    if |v| > 0 {
      BodyGrowsFrom(q, v, b, 1);
    }
    if |v| > 1 {
      BodyGrowsFrom(q, v, b, 2);
    }
  }

  lemma NothingInBody(q: Byte)
    ensures IsBody(q, [])
  {
  }

  lemma {:induction false} QuotedGrows(q: Byte, v: seq<Byte>, b: Byte)
    requires q != 'L' as int
    ensures IsQuoted(q, v + [b]) <==> IsOpened(q, v) && b == q
  {
    hide IsBody;
    var w := v + [b];
    assert |v| > 0 ==> w[1..|w| - 1] == v[1..];
    assert |v| > 1 ==> w[1..][1..|w| - 2] == v[2..];
  }

  /** The phase of a text behind one more character. */
  lemma {:induction false} QuotedStep(q: Byte, v: seq<Byte>, b: Byte)
    requires q == DOUBLE_QUOTE || q == SINGLE_QUOTE
    ensures forall p, p' :: InQuoted(q, p', v) && NextQuoted(q, p', b) == p != Dead ==> InQuoted(q, p, v + [b])
    ensures forall p :: InQuoted(q, p, v + [b]) ==> exists p' :: InQuoted(q, p', v) && NextQuoted(q, p', b) == p
  {
    hide IsBody, IsQuoted, IsOpened;
    var w := v + [b];
    NothingQuoted(q);
    OpenedGrows(q, v, b);
    QuotedGrows(q, v, b);
    assert w[..|v|] == v;
    forall p | InQuoted(q, p, w) ensures exists p' :: InQuoted(q, p', v) && NextQuoted(q, p', b) == p {
      var p' :=
        if p == Prefix then Fresh
        else if p == Body then
          if v == [] then Fresh else if v == ['L' as int] then Prefix
          else if IsOpened(q, v) && b != q && b != BACKSLASH then Body else Escape
        else Body;
      assert InQuoted(q, p', v) && NextQuoted(q, p', b) == p;
    }
  }

  lemma {:induction false} QuotedPhases(q: Byte, rule: nat, bol: bool, w: seq<Byte>)
    requires (rule, q) == (5, DOUBLE_QUOTE) || (rule, q) == (6, SINGLE_QUOTE)
    ensures InQuoted(q, PhaseOf(rule, bol, w), w) || PhaseOf(rule, bol, w) == Dead
    ensures forall p :: InQuoted(q, p, w) ==> PhaseOf(rule, bol, w) == p
  {
    hide IsBody, IsQuoted, IsOpened, NextMarker, NextOperator, NextReal, NextNumber;
    NothingQuoted(q);
    hide PhaseOf;
    PhaseStart(rule, bol);
    if w != [] {
      PhaseStep(rule, bol, w);
      var v, b := w[..|w| - 1], w[|w| - 1];
      assert w == v + [b];
      QuotedPhases(q, rule, bol, v);
      OpenedGrows(q, v, b);
      QuotedGrows(q, v, b);
      QuotedStep(q, v, b);
    }
  }

  lemma NothingQuoted(q: Byte)
    requires q != 'L' as int
    ensures !IsQuoted(q, []) && !IsOpened(q, []) && !IsOpened(q, ['L' as int])
    ensures !InQuoted(q, Escape, []) && (q != BACKSLASH ==> !InQuoted(q, Escape, ['L' as int]))
  {
  }

  // ----- Line markers -----

  /** The text is a line number but for the last part of it, which is this one. */
  predicate IsPartialLine(p: Part, w: seq<Byte>) {
    exists i: nat :: i < |w| && NumberFrom(p, w, i)
  }

  predicate NumberFrom(p: Part, w: seq<Byte>, i: nat) {
    i < |w| && IsSignGap(w[..i]) && InNumber(p, w[i..])
  }

  predicate GapFrom(w: seq<Byte>, i: nat) {
    0 < i < |w| && IsLineNumber(w[..i]) && AreSpaces(w[i..])
  }

  /** The name of a file has been opened, and does not end yet. */
  predicate IsNameStart(w: seq<Byte>) {
    w != [] && w[0] == DOUBLE_QUOTE && DOUBLE_QUOTE !in w[1..] && NEWLINE !in w[1..]
  }

  predicate NameFrom(w: seq<Byte>, i: nat) {
    0 < i < |w| && IsNumberGap(w[..i]) && IsNameStart(w[i..])
  }

  predicate HeadUpTo(w: seq<Byte>, i: nat) {
    i <= |w| && IsMarkerHead(w[..i]) && NEWLINE !in w[i..]
  }

  /** The text leads to this phase of the rule. */
  predicate InMarker(p: Phase, w: seq<Byte>) {
    match p
    case Fresh => |w| == 0
    case Sign => |w| == 1 && w[0] == NUMBER_SIGN
    case SignGap => IsSignGap(w)
    case MarkerNumber(n) => IsPartialLine(n, w)
    case NameGap => IsNumberGap(w)
    case NameStart => exists i: nat :: i == |w| - 1 && NameFrom(w, i)
    case Name => exists i: nat :: i < |w| - 1 && NameFrom(w, i)
    case Tail => exists i: nat :: i <= |w| && HeadUpTo(w, i)
    case Done => IsMarker(w)
    case _ => false
  }

  lemma {:induction false} GapGrows(v: seq<Byte>, b: Byte)
    ensures AreSpaces(v + [b]) <==> Space(b) && (v == [] || AreSpaces(v))
    ensures IsSignGap(v + [b]) <==> Space(b) && (InMarker(Sign, v) || IsSignGap(v))
  {
    var w := v + [b];
    assert b in w && forall c :: c in v ==> c in w;
    if |v| > 0 {
      assert w[1..] == v[1..] + [b];
      assert b in w[1..] && forall c :: c in v[1..] ==> c in w[1..];
    }
  }

  /** A number behind the sign, with one more character. */
  lemma {:induction false} NumberFromGrows(p: Part, v: seq<Byte>, b: Byte, i: nat)
    ensures NumberFrom(p, v + [b], i) <==>
      if i == |v| then IsSignGap(v) && FirstPart(b) == Some(p)
      else exists q :: NumberFrom(q, v, i) && NextPart(q, b) == Some(p)
  {
    hide IsSignGap, InNumber;
    var w := v + [b];
    if i <= |v| {
      assert w[..i] == v[..i] && w[i..] == v[i..] + [b];
      NumberStep(p, v[i..], b);
      NothingInNumber();
      assert i == |v| ==> v[i..] == [] && v[..i] == v;
    }
  }

  lemma NothingInNumber()
    ensures forall p :: !InNumber(p, [])
  {
  }

  /** A number is an integer unless it stops behind 0x. */
  lemma {:induction false} IntegerParts(w: seq<Byte>)
    ensures IsInteger(w) <==> exists p :: p != HexStart && InNumber(p, w)
  {
    if IsInteger(w) {
      var p := if IsNumber(w) then if IsHex(w) then Hex else if IsDecimal(w) then Decimal
          else if |w| == 1 then Zero else Octal
               else if Is(w[|w| - 1], 'u') && IsNumber(w[..|w| - 1]) then BehindU
               else if Is(w[|w| - 1], 'l') && IsNumber(w[..|w| - 1]) then BehindL else BehindBoth;
      assert p != HexStart && InNumber(p, w);
    }
  }

  lemma {:induction false} PartialGrows(p: Part, v: seq<Byte>, b: Byte)
    ensures IsPartialLine(p, v + [b]) <==>
      (IsSignGap(v) && FirstPart(b) == Some(p)) || exists q :: IsPartialLine(q, v) && NextPart(q, b) == Some(p)
  {
    hide IsSignGap, InNumber, NumberFrom;
    var w := v + [b];
    if IsPartialLine(p, w) {
      var i: nat :| i < |w| && NumberFrom(p, w, i);
      NumberFromGrows(p, v, b, i);
      if i < |v| {
        var q :| NumberFrom(q, v, i) && NextPart(q, b) == Some(p);
        assert IsPartialLine(q, v);
      }
    }
    if IsSignGap(v) && FirstPart(b) == Some(p) {
      NumberFromGrows(p, v, b, |v|);
    }
    if q :| IsPartialLine(q, v) && NextPart(q, b) == Some(p) {
      var i: nat :| i < |v| && NumberFrom(q, v, i);
      NumberFromGrows(p, v, b, i);
    }
  }

  lemma {:induction false} LineNumberParts(w: seq<Byte>)
    ensures IsLineNumber(w) <==> exists p :: p != HexStart && IsPartialLine(p, w)
  {
    hide IsSignGap, InNumber, IsInteger;
    if IsLineNumber(w) {
      var i: nat :| 0 < i < |w| && IsSignGap(w[..i]) && IsInteger(w[i..]);
      IntegerParts(w[i..]);
      var p :| p != HexStart && InNumber(p, w[i..]);
      assert NumberFrom(p, w, i);
      assert IsPartialLine(p, w);
    }
    if p :| p != HexStart && IsPartialLine(p, w) {
      var i: nat :| i < |w| && NumberFrom(p, w, i);
      IntegerParts(w[i..]);
      NoSignGap();
      assert w[..0] == [];
      assert 0 < i < |w| && IsSignGap(w[..i]) && IsInteger(w[i..]);
    }
  }

  lemma NoSignGap()
    ensures !IsSignGap([]) && !IsLineNumber([]) && !IsNumberGap([]) && !IsMarkerHead([])
  {
  }

  lemma {:induction false} GapFromGrows(v: seq<Byte>, b: Byte, i: nat)
    ensures GapFrom(v + [b], i) <==> Space(b) && if i == |v| then IsLineNumber(v) else GapFrom(v, i)
  {
    hide IsLineNumber, AreSpaces;
    var w := v + [b];
    NoSignGap();
    if i <= |v| {
      assert w[..i] == v[..i] && w[i..] == v[i..] + [b];
      GapGrows(v[i..], b);
      assert i == |v| ==> v[i..] == [] && v[..i] == v;
      NoSpaces();
    }
  }

  lemma NoSpaces()
    ensures !AreSpaces([])
  {
  }

  lemma {:induction false} NumberGapGrows(v: seq<Byte>, b: Byte)
    ensures IsNumberGap(v + [b]) <==> Space(b) && (IsNumberGap(v) || IsLineNumber(v))
  {
    hide IsLineNumber, AreSpaces;
    var w := v + [b];
    if IsNumberGap(w) {
      var i: nat :| 0 < i < |w| && IsLineNumber(w[..i]) && AreSpaces(w[i..]);
      assert GapFrom(w, i);
      GapFromGrows(v, b, i);
    }
    if Space(b) && IsNumberGap(v) {
      var i: nat :| 0 < i < |v| && IsLineNumber(v[..i]) && AreSpaces(v[i..]);
      assert GapFrom(v, i);
      GapFromGrows(v, b, i);
    }
    if Space(b) && IsLineNumber(v) {
      GapFromGrows(v, b, |v|);
    }
  }

  lemma {:induction false} NameFromGrows(v: seq<Byte>, b: Byte, i: nat)
    ensures NameFrom(v + [b], i) <==>
      if i == |v| then IsNumberGap(v) && b == DOUBLE_QUOTE else NameFrom(v, i) && b != DOUBLE_QUOTE && b != NEWLINE
    ensures i < |v| && NameFrom(v, i) && b == DOUBLE_QUOTE && i < |v| - 1 ==> IsMarkerHead(v + [b])
  {
    hide IsNumberGap;
    var w := v + [b];
    NoSignGap();
    if i <= |v| {
      assert w[..i] == v[..i] && w[i..] == v[i..] + [b];
      assert i == |v| ==> v[i..] == [] && v[..i] == v;
      if i < |v| {
        assert w[i..][1..] == v[i..][1..] + [b];
        assert b in w[i..][1..] && forall c :: c in v[i..][1..] ==> c in w[i..][1..];
        assert w[i..][1..|w[i..]| - 1] == v[i..][1..];
      }
    }
  }

  lemma {:induction false} HeadGrows(v: seq<Byte>, b: Byte)
    ensures IsMarkerHead(v + [b]) <==> b == DOUBLE_QUOTE && InMarker(Name, v)
  {
    hide IsNumberGap, NameFrom;
    var w := v + [b];
    if IsMarkerHead(w) {
      var i: nat :| 0 < i < |w| && IsNumberGap(w[..i]) && IsFileName(w[i..]);
      FileNameGrows(v, b, i);
    }
    if b == DOUBLE_QUOTE && InMarker(Name, v) {
      var i: nat :| i < |v| - 1 && NameFrom(v, i);
      NameFromGrows(v, b, i);
    }
  }

  lemma FileNameGrows(v: seq<Byte>, b: Byte, i: nat)
    requires 0 < i <= |v| && IsNumberGap((v + [b])[..i]) && IsFileName((v + [b])[i..])
    ensures b == DOUBLE_QUOTE && i < |v| - 1 && NameFrom(v, i)
  {
    hide IsNumberGap;
    var w := v + [b];
    assert w[..i] == v[..i] && w[i..] == v[i..] + [b];
    assert w[i..][1..|w[i..]| - 1] == v[i..][1..];
  }

  lemma {:induction false} TailGrows(v: seq<Byte>, b: Byte)
    ensures InMarker(Tail, v + [b]) <==> IsMarkerHead(v + [b]) || (InMarker(Tail, v) && b != NEWLINE)
    ensures IsMarker(v + [b]) <==> InMarker(Tail, v) && b == NEWLINE
  {
    hide IsMarkerHead;
    var w := v + [b];
    if InMarker(Tail, w) {
      var i: nat :| i <= |w| && HeadUpTo(w, i);
      TailCut(v, b, i);
    }
    if InMarker(Tail, v) {
      var i: nat :| i <= |v| && HeadUpTo(v, i);
      TailCut(v, b, i);
      assert b == NEWLINE ==> i < |w| && IsMarkerHead(w[..i]) && NEWLINE !in w[i..|w| - 1];
    }
    if IsMarkerHead(w) {
      TailCut(v, b, |w|);
    }
    if IsMarker(w) {
      var i: nat :| i < |w| && IsMarkerHead(w[..i]) && NEWLINE !in w[i..|w| - 1];
      TailCut(v, b, i);
      assert HeadUpTo(v, i);
    }
  }

  lemma TailCut(v: seq<Byte>, b: Byte, i: nat)
    requires i <= |v| + 1
    ensures HeadUpTo(v + [b], i) <==> if i == |v| + 1 then IsMarkerHead(v + [b]) else HeadUpTo(v, i) && b != NEWLINE
    ensures i <= |v| ==> (v + [b])[..i] == v[..i] && (v + [b])[i..|v|] == v[i..]
  {
    hide IsMarkerHead;
    var w := v + [b];
    if i <= |v| {
      assert w[..i] == v[..i] && w[i..] == v[i..] + [b];
      assert b in w[i..] && forall c :: c in v[i..] ==> c in w[i..];
    } else {
      assert w[..i] == w && w[i..] == [];
    }
  }

  lemma {:induction false} NameGrows(v: seq<Byte>, b: Byte)
    ensures InMarker(NameStart, v + [b]) <==> IsNumberGap(v) && b == DOUBLE_QUOTE
    ensures InMarker(Name, v + [b]) <==>
      (InMarker(NameStart, v) || InMarker(Name, v)) && b != DOUBLE_QUOTE && b != NEWLINE
  {
    hide IsNumberGap, NameFrom;
    var w := v + [b];
    NameFromGrows(v, b, |v|);
    forall i: nat ensures NameFrom(w, i) <==>
        if i == |v| then IsNumberGap(v) && b == DOUBLE_QUOTE else NameFrom(v, i) && b != DOUBLE_QUOTE && b != NEWLINE
    {
      NameFromGrows(v, b, i);
    }
    if InMarker(NameStart, v) {
      var i: nat :| i == |v| - 1 && NameFrom(v, i);
      assert NameFrom(w, i) == (b != DOUBLE_QUOTE && b != NEWLINE);
    }
    if InMarker(Name, v) {
      var i: nat :| i < |v| - 1 && NameFrom(v, i);
      assert NameFrom(w, i) == (b != DOUBLE_QUOTE && b != NEWLINE);
    }
  }

  /** The phase of a text behind one more character. */
  lemma {:induction false} MarkerStep(v: seq<Byte>, b: Byte, p: Phase)
    ensures InMarker(p, v + [b]) <==> p != Dead && exists q :: InMarker(q, v) && NextMarker(q, b) == p
  {
    hide InMarker, NextMarker;
    if InMarker(p, v + [b]) {
      MarkerStepBack(v, b, p);
    }
    forall q | InMarker(q, v) && NextMarker(q, b) == p != Dead ensures InMarker(p, v + [b]) {
      MarkerStepOn(v, b, q);
    }
  }

  lemma {:induction false} MarkerStepOn(v: seq<Byte>, b: Byte, q: Phase)
    requires InMarker(q, v) && NextMarker(q, b) != Dead
    ensures InMarker(NextMarker(q, b), v + [b])
  {
    hide IsSignGap, IsPartialLine, IsNumberGap, NameFrom, HeadUpTo, IsMarker, IsLineNumber, IsMarkerHead;
    GapGrows(v, b);
    LineNumberParts(v);
    NumberGapGrows(v, b);
    NameGrows(v, b);
    HeadGrows(v, b);
    TailGrows(v, b);
    if NextMarker(q, b).MarkerNumber? {
      PartialGrows(NextMarker(q, b).part, v, b);
    }
  }

  lemma {:induction false} MarkerStepBack(v: seq<Byte>, b: Byte, p: Phase)
    requires InMarker(p, v + [b])
    ensures p != Dead && exists q :: InMarker(q, v) && NextMarker(q, b) == p
  {
    hide IsSignGap, IsPartialLine, IsNumberGap, NameFrom, HeadUpTo, IsMarker, IsLineNumber, IsMarkerHead;
    GapGrows(v, b);
    LineNumberParts(v);
    NumberGapGrows(v, b);
    NameGrows(v, b);
    HeadGrows(v, b);
    TailGrows(v, b);
    var q := Dead;
    match p {
      case Fresh =>
      case Sign => q := Fresh;
      case SignGap => q := if InMarker(Sign, v) then Sign else SignGap;
      case MarkerNumber(n) =>
        PartialGrows(n, v, b);
        if IsSignGap(v) && FirstPart(b) == Some(n) {
          q := SignGap;
        } else {
          var m :| IsPartialLine(m, v) && NextPart(m, b) == Some(n);
          q := MarkerNumber(m);
        }
      case NameGap =>
        if IsNumberGap(v) {
          q := NameGap;
        } else {
          var m :| m != HexStart && IsPartialLine(m, v);
          q := MarkerNumber(m);
        }
      case NameStart => q := NameGap;
      case Name => q := if InMarker(NameStart, v) then NameStart else Name;
      case Tail => q := if IsMarkerHead(v + [b]) then Name else Tail;
      case Done => q := Tail;
      case _ =>
    }
    assert InMarker(q, v) && NextMarker(q, b) == p;
  }

  lemma {:induction false} MarkerPhases(w: seq<Byte>)
    ensures InMarker(PhaseOf(1, true, w), w) || PhaseOf(1, true, w) == Dead
    ensures forall p :: InMarker(p, w) ==> PhaseOf(1, true, w) == p
  {
    hide PhaseOf, InMarker, NextMarker;
    PhaseStart(1, true);
    if w != [] {
      PhaseStep(1, true, w);
      var v, b := w[..|w| - 1], w[|w| - 1];
      assert w == v + [b];
      MarkerPhases(v);
      DeadNext(v, b);
      forall p ensures InMarker(p, w) <==> p != Dead && exists q :: InMarker(q, v) && NextMarker(q, b) == p {
        MarkerStep(v, b, p);
      }
    } else {
      NothingInMarker();
    }
  }

  lemma DeadNext(v: seq<Byte>, b: Byte)
    ensures NextMarker(Dead, b) == Dead && !InMarker(Dead, v)
  {
  }

  lemma NothingInMarker()
    ensures forall p :: InMarker(p, []) <==> p == Fresh
  {
    hide IsMarkerHead, InNumber;
    NoSignGap();
    var w: seq<Byte> := [];
    assert w[..0] == w;
  }

  // ----- The phase decides -----

  /** A text is matched by a rule exactly if it leads to a phase in which the rule matches. */
  lemma {:induction false} PhasesDecide(rule: nat, bol: bool, w: seq<Byte>)
    requires 0 < rule <= 12 && w != []
    ensures Matched(PhaseOf(rule, bol, w)) <==> Language(rule, bol, w)
  {
    hide PhaseOf, IsMarker, IsSignLine, IsQuoted, IsName, IsOperator, IsInteger, IsFraction, IsPower, AreWhite,
      IsNumberGap, IsPartialLine, IsSignGap, IsBody;
    if rule <= 2 && !bol {
      DeadStays(rule, w);
    } else if rule == 1 {
      MarkerPhases(w);
      assert InMarker(Done, w) == IsMarker(w);
    } else if rule == 2 {
      LinePhases(w);
      LineStarts(w);
    } else if rule == 3 || rule == 12 {
      SinglePhases(rule, bol, w);
    } else if rule == 4 {
      WhitePhases(bol, w);
    } else if rule == 5 {
      QuotedPhases(DOUBLE_QUOTE, 5, bol, w);
      assert InQuoted(DOUBLE_QUOTE, Done, w) == IsQuoted(DOUBLE_QUOTE, w);
    } else if rule == 6 {
      QuotedPhases(SINGLE_QUOTE, 6, bol, w);
      assert InQuoted(SINGLE_QUOTE, Done, w) == IsQuoted(SINGLE_QUOTE, w);
    } else if rule == 7 {
      NamePhases(bol, w);
    } else if rule == 8 {
      OperatorPhases(bol, w);
    } else if rule == 9 {
      NumberPhases(bol, w);
      IntegerParts(w);
    } else if rule == 10 {
      RealPhases(bol, w);
      RealEnds(w);
    } else {
      DotPhases(bol, w);
    }
  }

  lemma LineStarts(w: seq<Byte>)
    ensures IsSignLine(w) ==> |w| > 1 && w[0] == NUMBER_SIGN && NEWLINE in w
  {
  }

  lemma RealEnds(w: seq<Byte>)
    ensures IsReal(w) <==> InReal(Fraction, w) || InReal(Power, w) || InReal(Done, w)
  {
    hide IsFraction, IsPower;
  }
}
