/** What each call of the genksyms lexer delivers, told by the tokens delivered before it and the
    tokens to come, with the numbers of the tokens written out. */
module TokenRules {
  import opened FirstStage
  import opened PhraseLexer
  import opened Wrappers

  import KeywordHash

  /** One call: the types known, the tokens to come before it and after it, line markers aside, and
      the token delivered. */
  datatype Call = Call(types: set<string>, ahead: seq<Token>, token: int, left: seq<Token>)

  // ----- Brackets -----

  /** How many of the tokens are this one. */
  function Count(ts: seq<Token>, c: int): nat {
    if ts == [] then 0 else (if ts[0].code == c then 1 else 0) + Count(ts[1..], c)
  }

  /** The last token closes the outermost bracket. */
  predicate Closed(open: int, close: int, ts: seq<Token>) {
    ts != [] && ts[|ts| - 1].code == close && Count(ts, open) == Count(ts, close)
  }

  /** A phrase up to the bracket that closes it, delivered as one token. */
  ghost predicate Bracketed(c: Call, open: int, close: int, phrase: int) {
    || (exists n: nat :: n <= |c.ahead| && Closed(open, close, c.ahead[..n]) &&
                         (forall k :: 0 <= k < n ==> !Closed(open, close, c.ahead[..k])) &&
                         c.token == phrase && c.left == c.ahead[n..])
    || ((forall k :: 0 <= k <= |c.ahead| ==> !Closed(open, close, c.ahead[..k])) && c.token == 0 && c.left == [])
  }

  /** A comma, a semicolon or a closing brace outside all brackets. */
  predicate Separator(ts: seq<Token>, n: nat)
    requires n < |ts|
  {
    && (ts[n].code == 44 || ts[n].code == 59 || ts[n].code == 125)
    && Count(ts[..n], 40) + Count(ts[..n], 91) + Count(ts[..n], 123) ==
       Count(ts[..n], 41) + Count(ts[..n], 93) + Count(ts[..n], 125)
  }

  /** All that stands before the first separator, delivered as one token. */
  ghost predicate Expressed(c: Call) {
    || (exists n: nat :: n < |c.ahead| && Separator(c.ahead, n) &&
                         (forall k: nat :: k < n ==> !Separator(c.ahead, k)) &&
                         c.token == 290 && c.left == c.ahead[n..])
    || ((forall k: nat :: k < |c.ahead| ==> !Separator(c.ahead, k)) && c.token == 0 && c.left == [])
  }

  // ----- Typeof -----

  ghost predicate IsKeyword(word: string) {
    exists c :: word in KeywordHash.Words(c)
  }

  /** An opening parenthesis; up to it, this many more are opened than closed. */
  predicate Opening(ts: seq<Token>, k: nat, more: int)
    requires k < |ts|
  {
    ts[k].code == 40 && Count(ts[..k], 40) == Count(ts[..k], 41) + more
  }

  /** The last token is a closing parenthesis, and this many more are closed than opened. */
  predicate Ended(ts: seq<Token>, more: int) {
    ts != [] && ts[|ts| - 1].code == 41 && Count(ts, 41) == Count(ts, 40) + more
  }

  /** A typeof with these tokens behind its first parenthesis and the token after that. */
  ghost predicate Enclosed(c: Call, ts: seq<Token>) {
    || (exists n: nat :: n <= |ts| && Ended(ts[..n], 1) && (forall k :: 0 <= k < n ==> !Ended(ts[..k], 1)) &&
                         c.token == 287 && c.left == ts[n..])
    || ((forall k :: 0 <= k <= |ts| ==> !Ended(ts[..k], 1)) && c.token == 0 && c.left == [])
  }

  /** A typeof with these tokens behind it.  A keyword or the name of a type behind its first parenthesis
      is left to the parser, and the parenthesis too; any other token there is taken without counting as a
      bracket. */
  ghost predicate Typed(c: Call, ts: seq<Token>) {
    || ((forall k: nat :: k < |ts| ==> !Opening(ts, k, 0)) && c.token == 0 && c.left == [])
    || (exists k: nat :: k < |ts| && Opening(ts, k, 0) && (forall j: nat :: j < k ==> !Opening(ts, j, 0)) &&
                         TypedFrom(c, ts, k))
  }

  ghost predicate TypedFrom(c: Call, ts: seq<Token>, k: nat)
    requires k < |ts|
  {
    if k + 1 == |ts| then c.token == 0 && c.left == []
    else if ts[k + 1].code == 293 && (IsKeyword(ts[k + 1].text) || ts[k + 1].text in c.types) then
      c.token == 283 && c.left == ts[k..]
    else Enclosed(c, ts[k + 2..])
  }

  // ----- The rule -----

  /** A struct, a union or an enum. */
  predicate Tag(c: int) {
    c == 277 || c == 279 || c == 265
  }

  /** The token delivered last is one of these. */
  predicate BehindTag(before: seq<int>) {
    before != [] && Tag(before[|before| - 1])
  }

  /** One of the two tokens delivered last is. */
  predicate InTag(before: seq<int>) {
    BehindTag(before) || (|before| > 1 && Tag(before[|before| - 2]))
  }

  /** An equals sign or a colon has just been delivered. */
  predicate Assigning(before: seq<int>) {
    before != [] && (before[|before| - 1] == 61 || before[|before| - 1] == 58)
  }

  /** A word taken by itself.  A keyword may be the name of a type. */
  ghost predicate Named(before: seq<int>, types: set<string>, word: string, token: int) {
    if word == "struct" then token == 277
    else if word == "union" then token == 279
    else if word == "enum" then token == 265
    else if word in {"EXPORT_SYMBOL", "EXPORT_SYMBOL_GPL", "EXPORT_SYMBOL_GPL_FUTURE", "EXPORT_UNUSED_SYMBOL",
      "EXPORT_UNUSED_SYMBOL_GPL"} then token == 284
    else if word in types && !BehindTag(before) then token == 297
    else if IsKeyword(word) then word in KeywordHash.Words(token)
    else token == 293
  }

  /** The call that follows these tokens. */
  ghost predicate Rule(before: seq<int>, c: Call) {
    if c.ahead == [] then c.token == 0 && c.left == []
    else if Assigning(before) then Expressed(c)
    else
      var t := c.ahead[0];
      if t.code == 293 && t.text in {"__attribute", "__attribute__"} then Bracketed(c, 40, 41, 286)
      else if t.code == 293 && t.text in {"asm", "__asm", "__asm__"} then Bracketed(c, 40, 41, 285)
      else if t.code == 293 && t.text in {"typeof", "__typeof", "__typeof__"} then Typed(c, c.ahead[1..])
      else if t.code == 91 then Bracketed(c, 91, 93, 289)
      else if t.code == 123 && !InTag(before) then Bracketed(c, 123, 125, 288)
      else if t.code == 293 then c.left == c.ahead[1..] && Named(before, c.types, t.text, c.token)
      else c.left == c.ahead[1..] && c.token == t.code
  }

  // ----- Phrases -----

  lemma {:induction false} CountFront(t: Token, ts: seq<Token>, c: int)
    ensures Count([t] + ts, c) == (if t.code == c then 1 else 0) + Count(ts, c)
  {
    assert ([t] + ts)[1..] == ts;
  }

  lemma {:induction false} DepthCounts(p: Phrase, ts: seq<Token>)
    ensures Depth(p, ts) ==
      match p
      case Attribute => Count(ts, 40) - Count(ts, 41)
      case Asm => Count(ts, 40) - Count(ts, 41)
      case Bracket => Count(ts, 91) - Count(ts, 93)
      case Brace => Count(ts, 123) - Count(ts, 125)
      case Expression =>
        Count(ts, 40) + Count(ts, 91) + Count(ts, 123) - Count(ts, 41) - Count(ts, 93) - Count(ts, 125)
  {
    if ts != [] {
      assert ts == [ts[0]] + ts[1..];
      DepthFront(p, ts[0], ts[1..]);
      DepthCounts(p, ts[1..]);
    }
  }

  /** The characters of the brackets of a phrase. */
  predicate BracketsOf(p: Phrase, open: int, close: int) {
    match p
    case Attribute => open == 40 && close == 41
    case Asm => open == 40 && close == 41
    case Bracket => open == 91 && close == 93
    case Brace => open == 123 && close == 125
    case Expression => false
  }

  /** A phrase begins at its first token, which opens a bracket or is a word. */
  lemma {:induction false} ClosedExactly(p: Phrase, open: int, close: int, t: Token, d: int, ts: seq<Token>)
    requires BracketsOf(p, open, close) && ts != []
    requires if t.code == open then d == 1 else d == 0 && t.code != close
    ensures Closed(open, close, [t] + ts) <==> EndsAt(p, d, ts)
  {
    DepthCounts(p, ts);
    CountFront(t, ts, open);
    CountFront(t, ts, close);
  }

  lemma {:induction false} BracketedExactly(p: Phrase, open: int, close: int, d: int, c: Call)
    requires BracketsOf(p, open, close) && c.ahead != []
    requires if c.ahead[0].code == open then d == 1 else d == 0 && c.ahead[0].code != close
    requires var r := PhraseDelivery(p, d, c.ahead[1..]);
             c.token == r.token && r.used <= |c.ahead| - 1 && c.left == c.ahead[1 + r.used..]
    ensures Bracketed(c, open, close, PhraseToken(p))
  {
    hide EndsAt, Closed, PhraseLength;
    var t, ts := c.ahead[0], c.ahead[1..];
    PhraseLengthMeans(p, d, ts);
    forall k | 1 < k <= |c.ahead| ensures Closed(open, close, c.ahead[..k]) <==> EndsAt(p, d, ts[..k - 1]) {
      assert c.ahead[..k] == [t] + ts[..k - 1];
      ClosedExactly(p, open, close, t, d, ts[..k - 1]);
    }
    NotYetClosed(open, close, c.ahead);
    var n := PhraseLength(p, d, ts);
    if n.Some? {
      assert Closed(open, close, c.ahead[..n.value + 1]);
    }
  }

  lemma {:induction false} NotYetClosed(open: int, close: int, ts: seq<Token>)
    requires ts != [] && ts[0].code != close
    ensures !Closed(open, close, ts[..0]) && !Closed(open, close, ts[..1])
  {
  }

  lemma {:induction false} ExpressedExactly(c: Call)
    requires var r := PhraseDelivery(Expression, 0, c.ahead);
             c.token == r.token && r.used <= |c.ahead| && c.left == c.ahead[r.used..]
    ensures Expressed(c)
  {
    hide EndsAt, Separator, PhraseLength;
    PhraseLengthMeans(Expression, 0, c.ahead);
    forall k: nat | k < |c.ahead| ensures Separator(c.ahead, k) <==> EndsAt(Expression, 0, c.ahead[..k + 1]) {
      SeparatorExactly(c.ahead, k);
    }
    var n := PhraseLength(Expression, 0, c.ahead);
    if n.Some? {
      assert Separator(c.ahead, n.value);
    }
  }

  lemma {:induction false} SeparatorExactly(ts: seq<Token>, k: nat)
    requires k < |ts|
    ensures Separator(ts, k) <==> EndsAt(Expression, 0, ts[..k + 1])
  {
    assert ts[..k + 1][..k] == ts[..k] && ts[..k + 1][k] == ts[k];
    DepthCounts(Expression, ts[..k]);
  }

  // ----- Typeof -----

  lemma {:induction false} CountFirst(ts: seq<Token>, k: nat, c: int)
    requires 0 < k <= |ts|
    ensures Count(ts[..k], c) == (if ts[0].code == c then 1 else 0) + Count(ts[1..][..k - 1], c)
  {
    assert ts[..k][1..] == ts[1..][..k - 1];
  }

  lemma {:induction false} OpeningStep(more: int, ts: seq<Token>, k: nat)
    requires 0 < k < |ts|
    ensures Opening(ts, k, more) <==> Opening(ts[1..], k - 1, more - Delta(Attribute, ts[0].code))
  {
    CountFirst(ts, k, 40);
    CountFirst(ts, k, 41);
  }

  /** Before its first parenthesis a typeof takes all tokens. */
  lemma {:induction false} BeforeOpening(names: Names, more: int, ts: seq<Token>, k: nat)
    requires more >= 0 && k <= |ts| && forall j: nat :: j < k ==> !Opening(ts, j, more)
    ensures var d := Count(ts[..k], 40) - Count(ts[..k], 41) - more;
            var r, r' := TypeofRun(names, false, -more, ts), TypeofRun(names, false, d, ts[k..]);
            r.token == r'.token && r.rest == r'.rest && d <= 0
    decreases k
  {
    hide Opening, Count;
    if k == 0 {
      NothingCounted(ts);
    } else {
      FirstOpening(ts, more);
      var us, more' := ts[1..], more - Delta(Attribute, ts[0].code);
      forall j: nat | j < k - 1 ensures !Opening(us, j, more') {
        OpeningStep(more, ts, j + 1);
      }
      BeforeOpening(names, more', us, k - 1);
      CountFirst(ts, k, 40);
      CountFirst(ts, k, 41);
      assert us[k - 1..] == ts[k..];
    }
  }

  lemma NothingCounted(ts: seq<Token>)
    ensures ts[0..] == ts && forall c :: Count(ts[..0], c) == 0
  {
  }

  lemma FirstOpening(ts: seq<Token>, more: int)
    requires ts != []
    ensures Opening(ts, 0, more) <==> ts[0].code == 40 && more == 0
  {
  }

  lemma {:induction false} EndedStep(more: int, ts: seq<Token>, k: nat)
    requires 0 < k <= |ts|
    ensures Ended(ts[..k], more) <==>
      if k == 1 then ts[0].code == 41 && more == 1
      else Ended(ts[1..][..k - 1], more + Delta(Attribute, ts[0].code))
  {
    CountFirst(ts, k, 40);
    CountFirst(ts, k, 41);
  }

  /** Behind it the typeof ends where one parenthesis more is closed than opened. */
  lemma {:induction false} TypeofEnds(names: Names, count: int, ts: seq<Token>, n: nat)
    requires count > 0 && n <= |ts| && Ended(ts[..n], count) && forall k :: 0 <= k < n ==> !Ended(ts[..k], count)
    ensures var r := TypeofRun(names, false, count, ts); r.token == 287 && r.rest == ts[n..]
    decreases n
  {
    hide Ended;
    assert n > 0 by {
      NotEnded(ts, count);
    }
    EndedStep(count, ts, n);
    if ts[0].code == 41 && count == 1 {
      EndedStep(count, ts, 1);
    } else {
      var us, count' := ts[1..], count + Delta(Attribute, ts[0].code);
      NotEnded(us, count');
      forall k | 0 < k < n - 1 ensures !Ended(us[..k], count') {
        EndedStep(count, ts, k + 1);
      }
      TypeofEnds(names, count', us, n - 1);
    }
  }

  lemma NotEnded(ts: seq<Token>, more: int)
    ensures !Ended(ts[..0], more)
  {
  }

  lemma {:induction false} TypeofNeverEnds(names: Names, count: int, ts: seq<Token>)
    requires count > 0 && forall k :: 0 <= k <= |ts| ==> !Ended(ts[..k], count)
    ensures var r := TypeofRun(names, false, count, ts); r.token == 0 && r.rest == []
    decreases |ts|
  {
    hide Ended;
    if ts != [] {
      var us, count' := ts[1..], count + Delta(Attribute, ts[0].code);
      EndedStep(count, ts, 1);
      NotEnded(us, count');
      forall k | 0 < k <= |us| ensures !Ended(us[..k], count') {
        EndedStep(count, ts, k + 1);
      }
      TypeofNeverEnds(names, count', us);
    }
  }

  lemma {:induction false} EnclosedExactly(names: Names, c: Call, ts: seq<Token>)
    requires var r := TypeofRun(names, false, 1, ts); c.token == r.token && c.left == r.rest
    ensures Enclosed(c, ts)
  {
    hide Ended, TypeofRun;
    var n := 0;
    while n <= |ts| && !Ended(ts[..n], 1)
      invariant n <= |ts| + 1 && forall k :: 0 <= k < n ==> !Ended(ts[..k], 1)
    {
      n := n + 1;
    }
    if n <= |ts| {
      TypeofEnds(names, 1, ts, n);
    } else {
      TypeofNeverEnds(names, 1, ts);
    }
  }

  lemma {:induction false} TypedExactly(names: Names, c: Call, ts: seq<Token>)
    requires names.typedefs == c.types && forall w :: w in names.reserved <==> IsKeyword(w)
    requires forall t :: t in ts && t.code == 40 ==> t == PAREN
    requires var r := TypeofRun(names, false, 0, ts); c.token == r.token && c.left == r.rest
    ensures Typed(c, ts)
  {
    hide TypeofRun, Count, IsKeyword, Enclosed;
    var k: nat := 0;
    while k < |ts| && !Opening(ts, k, 0)
      invariant k <= |ts| && forall j: nat :: j < k ==> !Opening(ts, j, 0)
    {
      k := k + 1;
    }
    BeforeOpening(names, 0, ts, k);
    var count := Count(ts[..k], 40) - Count(ts[..k], 41);
    if k == |ts| {
      assert ts[k..] == [];
      TypeofCut(names, count);
    } else {
      assert ts[k] in ts;
      TypeofFrom(names, c, ts, k);
    }
  }

  lemma {:induction false} TypeofFrom(names: Names, c: Call, ts: seq<Token>, k: nat)
    requires names.typedefs == c.types && forall w :: w in names.reserved <==> IsKeyword(w)
    requires k < |ts| && ts[k] == PAREN
    requires var r := TypeofRun(names, false, 0, ts[k..]); c.token == r.token && c.left == r.rest
    ensures TypedFrom(c, ts, k)
  {
    hide TypeofRun, IsKeyword, Enclosed;
    var us := ts[k + 1..];
    assert ts[k..] == [PAREN] + us;
    TypeofStep(names, false, 0, PAREN, us);
    if us == [] {
      TypeofCut(names, 1);
    } else {
      var t, vs := us[0], us[1..];
      assert us == [t] + vs && t == ts[k + 1] && vs == ts[k + 2..];
      TypeofStep(names, true, 1, t, vs);
      if t.code == 293 && Known(names, t.text) {
        assert [PAREN, t] + vs == ts[k..];
      } else {
        EnclosedExactly(names, c, vs);
      }
    }
  }

  // ----- Words -----

  /** With the shipped keywords a word is known by the token its keyword has. */
  lemma {:induction false} ReservedExactly(names: Names, w: string)
    requires names.reserved == KeywordHash.Reserved()
    ensures w in names.reserved <==> IsKeyword(w)
    ensures forall c :: w in KeywordHash.Words(c) <==> w in names.reserved && names.reserved[w] == c
  {
    hide KeywordHash.Reserved, KeywordHash.Word, KeywordHash.Token, KeywordHash.Lookup, KeywordHash.Words;
    KeywordHash.ReservedKeywords();
    KeywordHash.LookupIsMap(KeywordHash.Reserved(), w);
    forall c ensures w in KeywordHash.Words(c) <==> w in names.reserved && names.reserved[w] == c {
      KeywordHash.LookupFinds(w, c);
    }
    if w in names.reserved {
      assert w in KeywordHash.Words(names.reserved[w]);
    }
  }

  /** The codes of the first stage are those of characters or come behind all keywords. */
  predicate Coded(t: Token) {
    t.code < 128 || t.code >= 291
  }

  lemma {:induction false} StreamCodes(bol: bool, input: seq<Types.Byte>)
    ensures forall t :: t in Stream(bol, input) ==> Coded(t)
    decreases |input|
  {
    hide Matches, Stream, Before, FlexTables.RuleAt, GenksymsTables.Genksyms;
    GenksymsTables.GenksymsWellFormed();
    if input == [] {
      EmptyStream();
    } else {
      var n := FlexTables.MatchLength(GenksymsTables.Genksyms(), bol, input);
      var text, rest := input[..n], input[n..];
      var rule := FlexTables.RuleAt(GenksymsTables.Genksyms(), bol, input, n);
      assert input == text + rest;
      MatchedHere(bol, input, n);
      StreamCodes(FlexTables.AfterNewline(text), rest);
      StreamStep(bol, text, rest, rule);
      BeforeCoded(rule, text, Stream(FlexTables.AfterNewline(text), rest));
    }
  }

  lemma BeforeCoded(rule: nat, text: seq<Types.Byte>, rest: seq<Token>)
    requires |text| > 0 && forall t :: t in rest ==> Coded(t)
    ensures forall t :: t in Before(rule, text, rest) ==> Coded(t)
  {
  }

  /** The keywords that the rule writes out. */
  lemma WordsWritten()
    ensures KeywordHash.Words(258) == {"asm", "__asm", "__asm__"}
    ensures KeywordHash.Words(259) == {"__attribute", "__attribute__"}
    ensures KeywordHash.Words(283) == {"typeof", "__typeof", "__typeof__"}
    ensures KeywordHash.Words(277) == {"struct"} && KeywordHash.Words(279) == {"union"} &&
        KeywordHash.Words(265) == {"enum"}
    ensures KeywordHash.Words(284) == {"EXPORT_SYMBOL", "EXPORT_SYMBOL_GPL", "EXPORT_SYMBOL_GPL_FUTURE",
        "EXPORT_UNUSED_SYMBOL", "EXPORT_UNUSED_SYMBOL_GPL"}
  {
  }

  /** A word that is no phrase. */
  lemma {:induction false} NamedExactly(names: Names, before: seq<int>, suppress: nat, t: Token)
    requires names.reserved == KeywordHash.Reserved() && t.code == 293
    requires suppress == 0 <==> !BehindTag(before)
    ensures Named(before, names.typedefs, t.text, Classify(names, suppress, t))
  {
    hide KeywordHash.Reserved, KeywordHash.Words, BehindTag;
    WordsWritten();
    ReservedExactly(names, t.text);
  }

  // ----- A call -----

  /** What the state of the lexer has to be behind these tokens. */
  ghost predicate Behind(before: seq<int>, state: State, suppress: nat, brace: nat) {
    && state == (if Assigning(before) then In(Expression) else Normal)
    && (suppress == 0 <==> !BehindTag(before)) && (brace == 0 <==> !InTag(before))
    && suppress <= 1 && brace <= 2 && (brace == 2 <==> BehindTag(before))
  }

  /** Such a call is as the rule has it. */
  lemma {:induction false} DeliverExactly(names: Names, before: seq<int>, state: State, suppress: nat, brace: nat,
      c: Call)
    requires names.reserved == KeywordHash.Reserved() && names.typedefs == c.types
    requires Behind(before, state, suppress, brace)
    requires !(state == Normal && c.ahead != [] && IsTypeof(names, c.ahead[0]))
    requires var r := Deliver(state, names, suppress, brace, c.ahead);
             c.token == r.token && r.used <= |c.ahead| && c.left == c.ahead[r.used..]
    ensures Rule(before, c)
  {
    hide KeywordHash.Reserved, KeywordHash.Words, BehindTag, InTag, Assigning, Bracketed, Expressed, Named,
        PhraseDelivery, Classify;
    if c.ahead == [] {
    } else if Assigning(before) {
      ExpressedExactly(c);
    } else {
      var t, ts := c.ahead[0], c.ahead[1..];
      WordsWritten();
      ReservedExactly(names, t.text);
      match Starts(names, brace, t)
      case Some(s) =>
        var (p, d) := s;
        var r := PhraseDelivery(p, d, ts);
        BracketedExactly(p, if p.Bracket? then 91 else if p.Brace? then 123 else 40,
          if p.Bracket? then 93 else if p.Brace? then 125 else 41, d, c);
      case None =>
        assert c.left == c.ahead[1..];
        if t.code == 293 {
          NamedExactly(names, before, suppress, t);
        }
        PlainToken(names, suppress, t);
    }
  }

  lemma PlainToken(names: Names, suppress: nat, t: Token)
    ensures t.code != 293 ==> Classify(names, suppress, t) == t.code
  {
  }

  /** The same of the call of a typeof. */
  lemma {:induction false} TypeofExactly(names: Names, before: seq<int>, c: Call)
    requires names.reserved == KeywordHash.Reserved() && names.typedefs == c.types
    requires c.ahead != [] && IsTypeof(names, c.ahead[0]) && !Assigning(before) && Parens(c.ahead)
    requires var r := TypeofRun(names, false, 0, c.ahead[1..]); c.token == r.token && c.left == r.rest
    ensures Rule(before, c)
  {
    hide KeywordHash.Reserved, KeywordHash.Words, Assigning, TypeofRun, Typed, IsKeyword;
    WordsWritten();
    ReservedExactly(names, c.ahead[0].text);
    forall w ensures w in names.reserved <==> IsKeyword(w) {
      ReservedExactly(names, w);
    }
    TypedExactly(names, c, c.ahead[1..]);
  }

  /** Any call is. */
  lemma {:induction false} CalledExactly(lexer: Lexer, names: Names, before: seq<int>, state: State, suppress: nat,
      brace: nat, list: seq<string>, c: Call)
    requires names.reserved == KeywordHash.Reserved() && names.typedefs == c.types
    requires Behind(before, state, suppress, brace) && Parens(c.ahead)
    requires lexer.Called(names, state, suppress, brace, list, c.ahead, true, c.token) && c.left == Visible(lexer.rest)
    ensures Rule(before, c)
  {
    hide KeywordHash.Reserved, Deliver, TypeofRun, IsTypeof, Rule, Visible;
    if state == Normal && c.ahead != [] && IsTypeof(names, c.ahead[0]) {
      TypeofExactly(names, before, c);
    } else {
      DeliverExactly(names, before, state, suppress, brace, c);
    }
  }

  /** What the delivery of a token tells of the state behind it. */
  lemma {:induction false} DeliveredKinds(names: Names, state: State, suppress: nat, brace: nat, ts: seq<Token>)
    requires names.reserved == KeywordHash.Reserved() && (state == Normal || state == In(Expression))
    requires forall t :: t in ts ==> Coded(t)
    requires !(state == Normal && ts != [] && IsTypeof(names, ts[0]))
    ensures var r := Deliver(state, names, suppress, brace, ts);
            r.token != 0 ==>
              && r.state == (if r.token == 61 || r.token == 58 then In(Expression) else Normal)
              && (Tag(r.token) ==> state == Normal && ts[0].code == IDENT)
  {
    hide KeywordHash.Reserved, KeywordHash.Words, PhraseLength;
    if ts != [] && state == Normal {
      var t := ts[0];
      assert t in ts;
      ReservedExactly(names, t.text);
      if t.text in names.reserved {
        KeywordHash.TokensInRange(t.text, names.reserved[t.text]);
      }
    }
  }

  lemma {:induction false} NextBehind(lexer: Lexer, names: Names, before: seq<int>, state: State, suppress: nat,
      brace: nat, list: seq<string>, v: seq<Token>, token: int)
    requires names.reserved == KeywordHash.Reserved() && Behind(before, state, suppress, brace)
    requires lexer.Called(names, state, suppress, brace, list, v, true, token) && token != 0
    requires forall t :: t in v ==> Coded(t)
    requires v != [] && (lexer.suppress, lexer.brace) ==
      if state == Normal && v[0].code == IDENT && IsTag(token) then (1, 2) else (Less(suppress), Less(brace))
    ensures Behind(before + [token], lexer.lexstate, lexer.suppress, lexer.brace)
  {
    hide KeywordHash.Reserved, Deliver, TypeofRun, IsTypeof, Visible;
    if state == Normal && IsTypeof(names, v[0]) {
      TypeofTokens(names, false, 0, v[1..]);
    } else {
      DeliveredKinds(names, state, suppress, brace, v);
    }
  }

  lemma {:induction false} TypeofTokens(names: Names, start: bool, count: int, ts: seq<Token>)
    ensures var r := TypeofRun(names, start, count, ts); r.token == 0 || r.token == 283 || r.token == 287
    decreases |ts|
  {
    if ts != [] {
      TypeofTokens(names, false, if start then count else count + Delta(Attribute, ts[0].code), ts[1..]);
      TypeofTokens(names, true, 1, ts[1..]);
    }
  }

  // ----- All calls -----

  /** This call begins where the one before it ended, and is as the rule has it. */
  ghost predicate CallAt(all: seq<Token>, types: nat -> set<string>, tokens: seq<int>, calls: seq<Call>, i: nat)
    requires i < |calls| == |tokens|
  {
    && calls[i].ahead == Left(all, calls[..i])
    && calls[i].types == types(i) && calls[i].token == tokens[i] && Rule(tokens[..i], calls[i])
  }

  /** The calls that deliver these tokens, from the first one on. */
  ghost predicate Calls(all: seq<Token>, types: nat -> set<string>, tokens: seq<int>, calls: seq<Call>) {
    |tokens| == |calls| && forall i: nat :: i < |calls| ==> CallAt(all, types, tokens, calls, i)
  }

  /** What these calls leave. */
  function Left(all: seq<Token>, calls: seq<Call>): seq<Token> {
    if calls == [] then all else calls[|calls| - 1].left
  }

  lemma {:induction false} OneMoreCall(all: seq<Token>, types: nat -> set<string>, tokens: seq<int>,
      calls: seq<Call>, c: Call)
    requires Calls(all, types, tokens, calls)
    requires c.ahead == Left(all, calls) && c.types == types(|tokens|) && Rule(tokens, c)
    ensures Calls(all, types, tokens + [c.token], calls + [c])
  {
    hide Rule, Left;
    var tokens', calls' := tokens + [c.token], calls + [c];
    assert tokens'[..|tokens|] == tokens && calls'[..|calls|] == calls;
    forall i: nat | i < |calls| ensures CallAt(all, types, tokens', calls', i) {
      assert CallAt(all, types, tokens, calls, i);
      assert tokens'[..i] == tokens[..i] && calls'[..i] == calls[..i];
    }
  }

  /** An opening brace behind a struct, a union or an enum, or one token further, is delivered by itself;
      any other starts a phrase. */
  lemma {:induction false} OpeningBrace(all: seq<Token>, types: nat -> set<string>, tokens: seq<int>, calls: seq<Call>,
      i: nat)
    requires Calls(all, types, tokens, calls) && i < |calls|
    requires calls[i].ahead != [] && calls[i].ahead[0].code == 123
    requires i > 0 ==> tokens[i - 1] != 61 && tokens[i - 1] != 58
    ensures (tokens[i] == 123 && calls[i].left == calls[i].ahead[1..]) <==>
            exists j :: 0 <= j < i <= j + 2 && (tokens[j] == 277 || tokens[j] == 279 || tokens[j] == 265)
    ensures tokens[i] == 123 || tokens[i] == 288 || tokens[i] == 0
  {
    hide Closed;
    assert CallAt(all, types, tokens, calls, i);
    if i > 0 {
      assert tokens[..i][i - 1] == tokens[i - 1];
    }
    if i > 1 {
      assert tokens[..i][i - 2] == tokens[i - 2];
    }
  }

  lemma VisibleFirst(t: Token, us: seq<Token>)
    ensures Visible([t] + us) == (if t.code == 299 then [] else [t]) + Visible(us)
  {
    assert ([t] + us)[1..] == us;
  }

  /** Line markers aside, the tokens are those of the first stage, in order. */
  lemma {:induction false} VisibleBetween(ts: seq<Token>, t: Token, us: seq<Token>)
    ensures Visible(ts + [t] + us) == Visible(ts) + (if t.code == 299 then [] else [t]) + Visible(us)
  {
    hide Visible;
    VisibleFirst(t, us);
    if ts == [] {
      assert ts + [t] + us == [t] + us;
      NothingVisible();
    } else {
      VisibleBetween(ts[1..], t, us);
      VisibleFirst(ts[0], ts[1..]);
      VisibleFirst(ts[0], ts[1..] + [t] + us);
      assert ts == [ts[0]] + ts[1..];
      assert ts + [t] + us == [ts[0]] + (ts[1..] + [t] + us);
    }
  }

  lemma NothingVisible()
    ensures Visible([]) == []
  {
  }
}
