/** The first stage of the genksyms lexer: what its rules make of the scanner's tokens, and what
    the scanner makes of characters that are put back. */
module FirstStage {
  import opened FlexTables
  import opened GenksymsTables
  import opened Types
  import opened Wrappers

  /** A token of the first stage. */
  datatype Token = Token(code: int, text: string)

  const FILENAME: int := 299
  const STRING: int := 296
  const CHAR: int := 291
  const IDENT: int := 293
  const OTHER: int := 298
  const INT: int := 294
  const REAL: int := 295
  const DOTS: int := 292

  // The rules that are told apart below.
  const IDENT_RULE: nat := 7
  const SINGLE_RULE: nat := 12

  // ----- Tokens -----

  /** The value of a byte as a signed character. */
  function Signed(b: Byte): int {
    if b < 128 then b else b - 256
  }

  function Chars(bytes: seq<Byte>): string {
    seq(|bytes|, i requires 0 <= i < |bytes| => bytes[i] as char)
  }

  /** Rules for white space, and the one that echoes, deliver nothing. */
  predicate Skipped(rule: nat) {
    2 <= rule <= 4 || rule == 13
  }

  function Code(rule: nat, text: seq<Byte>): int
    requires |text| > 0
  {
    if rule == 1 then FILENAME
    else if rule == 5 then STRING
    else if rule == 6 then CHAR
    else if rule == IDENT_RULE then IDENT
    else if rule == 8 then OTHER
    else if rule == 9 then INT
    else if rule == 10 then REAL
    else if rule == 11 then DOTS
    else Signed(text[0])
  }

  function Word(rule: nat, text: seq<Byte>): Token
    requires |text| > 0
  {
    Token.Token(Code(rule, text), Chars(text))
  }

  /** The tokens of an input, given those behind its first match; a NUL ends them. */
  function Before(rule: nat, text: seq<Byte>, rest: seq<Token>): seq<Token>
    requires |text| > 0
  {
    if Skipped(rule) then rest
    else if Code(rule, text) == 0 then []
    else [Word(rule, text)] + rest
  }

  /** What the first stage delivers for an input. */
  function Stream(bol: bool, input: seq<Byte>): seq<Token>
    decreases |input|
  {
    if input == [] then []
    else
      GenksymsWellFormed();
      var n := MatchLength(Genksyms(), bol, input);
      Before(RuleAt(Genksyms(), bol, input, n), input[..n], Stream(AfterNewline(input[..n]), input[n..]))
  }

  /** The first n characters are the longest match, by this rule. */
  ghost predicate Matches(bol: bool, input: seq<Byte>, n: nat, rule: nat) {
    GenksymsWellFormed();
    Longest(Genksyms(), bol, input, n) && RuleAt(Genksyms(), bol, input, n) == rule
  }

  lemma {:induction false} StreamStep(bol: bool, text: seq<Byte>, rest: seq<Byte>, rule: nat)
    requires Matches(bol, text + rest, |text|, rule)
    ensures |text| > 0
    ensures Stream(bol, text + rest) == Before(rule, text, Stream(AfterNewline(text), rest))
  {
    hide Genksyms, Shape, Steps, Accepts, RuleAt, Before;
    GenksymsWellFormed();
    LongestUnique(Genksyms(), bol, text + rest, |text|, MatchLength(Genksyms(), bol, text + rest));
    assert (text + rest)[..|text|] == text && (text + rest)[|text|..] == rest;
  }

  // ----- The automaton after its first character -----

  lemma LateFacts()
    ensures forall s: nat :: 3 < s < 85 && s != 72 ==> Def(s) > 3
    ensures forall i: nat :: i < 295 && i != 266 && Chk(i) > 3 ==> Nxt(i) > 20
    ensures forall s: nat :: s < 73 && Accept(s) == SINGLE_RULE ==> s <= 20
  {
  }

  /** No transition but from the start states leads to a state that matches a single character. */
  lemma {:induction false} LookupLate(s: nat, c: nat, fuel: nat)
    requires 3 < s < 85 && 0 < c < 29 && fuel > Depth(s)
    ensures var r := Lookup(Genksyms(), s, c, fuel); r.Some? && r.value > 20
    decreases fuel
  {
    hide Accept, Ec, Base, Def, Nxt, Chk, Meta, Depth;
    TableFacts();
    LateFacts();
    if Chk(Base(s) + c) != s {
      LookupLate(Def(s), if Def(s) < 73 then c else Meta(c), fuel - 1);
    }
  }

  /** The state after k characters of an input. */
  ghost function StateAt(bol: bool, input: seq<Byte>, k: nat): (s: nat)
    requires k <= |input|
    ensures 0 < s < 73 && s != 3
  {
    hide Accepts, Steps, Accept, Ec, Base, Def, Nxt, Chk, Meta, Depth, RunTo;
    GenksymsWellFormed();
    RunTo(Genksyms(), Start(bol), input, k)
  }

  ghost function ClassAt(input: seq<Byte>, k: nat): (c: nat)
    requires k < |input|
    ensures 0 < c < 29
  {
    GenksymsWellFormed();
    Class(Genksyms(), input[k])
  }

  lemma {:induction false} NextState(bol: bool, input: seq<Byte>, k: nat)
    requires 0 < k <= |input|
    ensures StateAt(bol, input, 0) == Start(bol)
    ensures var s := StateAt(bol, input, k - 1);
            if s == 72 then StateAt(bol, input, k) == 72
            else Lookup(Genksyms(), s, ClassAt(input, k - 1), CHAIN) == Some(StateAt(bol, input, k))
  {
    hide Accepts, Accept, Ec, Base, Def, Nxt, Chk, Meta, Depth, Lookup, Steps;
    GenksymsWellFormed();
    var s := StateAt(bol, input, k - 1);
    if s != 72 {
      StepLookup(Genksyms(), s, ClassAt(input, k - 1));
    }
  }

  /** After two characters the state is one of those that match no single character. */
  lemma {:induction false} LateStates(bol: bool, input: seq<Byte>, k: nat)
    requires 0 < k <= |input|
    ensures StateAt(bol, input, k) > 3
    ensures k > 1 ==> StateAt(bol, input, k) > 20
  {
    hide Genksyms, StateAt, ClassAt, Depth, Lookup;
    NextState(bol, input, k);
    var s := StateAt(bol, input, k - 1);
    DepthFacts();
    if k > 1 {
      LateStates(bol, input, k - 1);
      if s != 72 {
        LookupLate(s, ClassAt(input, k - 1), CHAIN);
      }
    } else {
      LookupEnds(s, ClassAt(input, 0), CHAIN);
    }
  }

  lemma DepthFacts()
    ensures forall s: nat :: 0 < s < 85 ==> Depth(s) < CHAIN
  {
  }

  ghost function RuleOf(bol: bool, input: seq<Byte>, k: nat): (rule: nat)
    requires k <= |input|
    ensures rule == Accept(StateAt(bol, input, k))
  {
    hide Accepts, Steps, Ec, Base, Def, Nxt, Chk, Meta, Depth, RunTo, Accept;
    GenksymsWellFormed();
    RuleAt(Genksyms(), bol, input, k)
  }

  lemma {:induction false} MatchesMeans(bol: bool, input: seq<Byte>, n: nat, rule: nat)
    ensures Matches(bol, input, n, rule) <==>
              && 0 < n <= |input| && RuleOf(bol, input, n) == rule != 0
              && forall k :: n < k <= |input| ==> RuleOf(bol, input, k) == 0
  {
    hide Genksyms, Shape, Steps, Accepts, Accept, StateAt, RuleAt;
    GenksymsWellFormed();
    assert forall k: nat :: k <= |input| ==> RuleAt(Genksyms(), bol, input, k) == RuleOf(bol, input, k);
  }

  lemma {:induction false} StaysJammed(bol: bool, input: seq<Byte>, j: nat, k: nat)
    requires j < k <= |input| && Base(StateAt(bol, input, j)) == 266
    ensures StateAt(bol, input, k) == 72 && RuleOf(bol, input, k) == 0
  {
    hide Shape, Steps, Accepts, RunTo, Ec, Def, Nxt, Chk, Meta, Depth;
    GenksymsWellFormed();
    AloneFacts();
    EndedStaysJammed(Genksyms(), Start(bol), input, j, k);
    AcceptFacts();
  }

  /** The rule for single characters matches nothing longer. */
  lemma {:induction false} SingleCharacter(bol: bool, input: seq<Byte>, n: nat)
    requires Matches(bol, input, n, SINGLE_RULE)
    ensures n == 1
  {
    hide Genksyms, StateAt, Accept, Matches;
    MatchesMeans(bol, input, n, SINGLE_RULE);
    LateStates(bol, input, n);
    LateFacts();
  }

  lemma RuleFacts()
    ensures forall s: nat :: s < 73 && s != 3 ==> Accept(s) <= SINGLE_RULE
  {
  }

  /** A token whose code is a character is that character. */
  lemma {:induction false} SingleWord(bol: bool, text: seq<Byte>, rest: seq<Byte>, rule: nat)
    requires Matches(bol, text + rest, |text|, rule) && |text| > 0 && !Skipped(rule) && 0 <= Code(rule, text) < 128
    ensures text == [Code(rule, text)]
    ensures Word(rule, text) == Token.Token(text[0], [text[0] as char])
  {
    hide Accept, Matches, StateAt, Genksyms, Chars;
    MatchesMeans(bol, text + rest, |text|, rule);
    RuleFacts();
    SingleCharacter(bol, text + rest, |text|);
    OneChar(text[0]);
  }

  /** A comma, a semicolon, a closing brace and an opening parenthesis. */
  predicate Alone(c: Byte) {
    c == 44 || c == 59 || c == 125 || c == 40
  }

  lemma AloneFacts()
    ensures Ec(44) == Ec(59) == Ec(125) == Ec(40) == 1
    ensures Chk(1) == 1 && Nxt(1) == 4 && Chk(146) != 2 && Accept(4) == SINGLE_RULE
    ensures Base(1) == 0 && Base(2) == 145 && Base(4) == Base(72) == 266 && Def(2) == 1
  {
  }

  /** Such a character is a token by itself, whatever follows it and wherever it stands. */
  lemma {:induction false} AloneMatches(bol: bool, c: Byte, rest: seq<Byte>)
    requires Alone(c)
    ensures Matches(bol, [c] + rest, 1, SINGLE_RULE)
  {
    hide Accept, Ec, Base, Def, Nxt, Chk, Meta, StateAt, Matches;
    var input := [c] + rest;
    AloneFacts();
    NextState(bol, input, 1);
    assert ClassAt(input, 0) == 1;
    assert Lookup(Genksyms(), 1, 1, CHAIN) == Lookup(Genksyms(), 1, 1, CHAIN - 1) == Some(4);
    assert StateAt(bol, input, 1) == 4;
    forall k | 1 < k <= |input| ensures RuleOf(bol, input, k) == 0 {
      StaysJammed(bol, input, 1, k);
    }
    MatchesMeans(bol, input, 1, SINGLE_RULE);
  }

  // ----- Identifiers at the start of a line and elsewhere -----

  /** The class of the number sign, which is special at the start of a line. */
  const SIGN_CLASS: nat := 6

  /** The states behind a number sign at the start of a line. */
  predicate LineState(s: nat) {
    s == 20 || 42 <= s <= 44 || 54 <= s <= 55 || 59 <= s <= 72
  }

  lemma LineFacts()
    ensures forall s: nat :: s < 73 && LineState(s) ==> Accept(s) != IDENT_RULE
    ensures forall s: nat :: s < 85 && s != 72 && (LineState(s) || s == 76 || s == 83 || s == 84) ==>
      LineState(Def(s)) || Def(s) == 76 || Def(s) == 83 || Def(s) == 84
    ensures forall i: nat ::
      i < 295 && i != 266 && (LineState(Chk(i)) || Chk(i) == 76 || Chk(i) == 83 || Chk(i) == 84) ==> LineState(Nxt(i))
    ensures Chk(145 + SIGN_CLASS) == 2 && Nxt(145 + SIGN_CLASS) == 20
    ensures forall i: nat :: 145 < i < 174 && i != 145 + SIGN_CLASS ==> Chk(i) != 2
    ensures LineState(20) && LineState(72) && forall s: nat :: LineState(s) ==> 0 < s < 73
  {
  }

  lemma {:induction false} LookupLine(s: nat, c: nat, fuel: nat)
    requires s < 85 && (LineState(s) || s == 76 || s == 83 || s == 84) && 0 < c < 29 && fuel > Depth(s)
    ensures var r := Lookup(Genksyms(), s, c, fuel); r.Some? && LineState(r.value)
    decreases fuel
  {
    hide Accept, Ec, Base, Def, Nxt, Chk, Meta, Depth, LineState;
    TableFacts();
    LineFacts();
    if Chk(Base(s) + c) != s {
      assert LineState(s) || s == 76 || s == 83 || s == 84;
      LookupLine(Def(s), if Def(s) < 73 then c else Meta(c), fuel - 1);
    }
  }

  /** Behind a number sign at the start of a line no identifier is matched. */
  lemma {:induction false} LineStates(input: seq<Byte>, k: nat)
    requires 0 < k <= |input| && ClassAt(input, 0) == SIGN_CLASS
    ensures LineState(StateAt(true, input, k))
  {
    hide Accept, Ec, Base, Def, Nxt, Chk, Meta, StateAt, ClassAt, Depth, LineState;
    NextState(true, input, k);
    LineFacts();
    AloneFacts();
    DepthFacts();
    if k > 1 {
      LineStates(input, k - 1);
      var s := StateAt(true, input, k - 1);
      if s != 72 {
        LookupLine(s, ClassAt(input, k - 1), CHAIN);
      }
    }
  }

  /** Without a number sign in front it makes no difference whether a line starts. */
  lemma {:induction false} SameStates(input: seq<Byte>, k: nat)
    requires 0 < k <= |input| && ClassAt(input, 0) != SIGN_CLASS
    ensures StateAt(true, input, k) == StateAt(false, input, k)
  {
    hide Accept, Ec, Base, Def, Nxt, Chk, Meta, StateAt, ClassAt, Depth;
    NextState(true, input, k);
    NextState(false, input, k);
    if k > 1 {
      SameStates(input, k - 1);
    } else {
      LineFacts();
      AloneFacts();
      AcceptFacts();
      var c := ClassAt(input, 0);
      assert Lookup(Genksyms(), 2, c, CHAIN) == Lookup(Genksyms(), 1, c, CHAIN - 1) == Some(Nxt(c));
      assert Lookup(Genksyms(), 1, c, CHAIN) == Some(Nxt(c));
    }
  }

  /** An identifier that is read again is the same identifier. */
  lemma {:induction false} IdentifierAgain(bol: bool, input: seq<Byte>, n: nat)
    requires Matches(bol, input, n, IDENT_RULE)
    ensures Matches(false, input, n, IDENT_RULE)
  {
    hide Genksyms, Accept, StateAt, ClassAt, Matches, LineState;
    MatchesMeans(bol, input, n, IDENT_RULE);
    if bol {
      if ClassAt(input, 0) == SIGN_CLASS {
        LineStates(input, n);
        LineFacts();
      }
      forall k | 0 < k <= |input| ensures RuleOf(false, input, k) == RuleOf(true, input, k) {
        SameStates(input, k);
      }
      MatchesMeans(false, input, n, IDENT_RULE);
    }
  }

  // ----- What is read after something has been put back -----

  lemma OneChar(c: Byte)
    ensures Chars([c]) == [c as char]
  {
  }

  /** A separator that is put back is the next token, and what follows it is unchanged. */
  lemma {:induction false} AloneNext(bol: bool, c: Byte, rest: seq<Byte>)
    requires Alone(c)
    ensures Stream(bol, [c] + rest) == [Token.Token(c, [c as char])] + Stream(false, rest)
  {
    hide Matches, Stream, Chars, Genksyms;
    AloneMatches(bol, c, rest);
    StreamStep(bol, [c], rest, SINGLE_RULE);
    OneChar(c);
  }

  /** A parenthesis put back before an identifier that is put back: both are read again. */
  lemma {:induction false} IdentifierNext(bol: bool, bol': bool, text: seq<Byte>, rest: seq<Byte>)
    requires Matches(bol, text + rest, |text|, IDENT_RULE)
    ensures |text| > 0
    ensures Stream(bol', [40] + (text + rest)) ==
            [Token.Token(40, "("), Token.Token(IDENT, Chars(text))] + Stream(AfterNewline(text), rest)
  {
    hide Matches, Stream, RuleOf, Chars, AfterNewline;
    MatchesMeans(bol, text + rest, |text|, IDENT_RULE);
    AloneNext(bol', 40, text + rest);
    IdentifierAgain(bol, text + rest, |text|);
    StreamStep(false, text, rest, IDENT_RULE);
  }

  /** In all that is delivered, a token whose code is a character is that character. */
  lemma {:induction false} CharacterTokens(bol: bool, input: seq<Byte>)
    ensures forall t :: t in Stream(bol, input) && 0 <= t.code < 128 ==> t == Token.Token(t.code, [t.code as char])
    decreases |input|
  {
    hide Matches, Genksyms, Chars;
    if input != [] {
      GenksymsWellFormed();
      var n := MatchLength(Genksyms(), bol, input);
      var text, rest := input[..n], input[n..];
      var rule := RuleAt(Genksyms(), bol, input, n);
      assert input == text + rest;
      MatchedHere(bol, input, n);
      CharacterTokens(AfterNewline(text), rest);
      StreamStep(bol, text, rest, rule);
      if !Skipped(rule) && 0 <= Code(rule, text) < 128 {
        SingleWord(bol, text, rest, rule);
      }
    }
  }

  lemma {:induction false} MatchedHere(bol: bool, input: seq<Byte>, n: nat)
    requires WellFormed(Genksyms()) && Longest(Genksyms(), bol, input, n)
    ensures n <= |input| && Matches(bol, input, n, RuleAt(Genksyms(), bol, input, n))
  {
    hide Genksyms, WellFormed, RuleAt;
  }
}
