/** The second stage of the genksyms lexer: it collects the text of every token in a list and
    folds brackets, braces, attributes, assembler and initialisers into single tokens. */
module PhraseLexer {
  import opened FirstStage
  import opened Wrappers

  import FlexScanner
  import FlexTables
  import GenksymsTables
  import Types

  // Single characters are their own codes.
  const COMMA: int := 44
  const COLON: int := 58
  const SEMICOLON: int := 59
  const EQUALS: int := 61
  const OPEN_PAREN: int := 40
  const CLOSE_PAREN: int := 41
  const OPEN_BRACKET: int := 91
  const CLOSE_BRACKET: int := 93
  const OPEN_BRACE: int := 123
  const CLOSE_BRACE: int := 125

  const ASM_KEYW: int := 258
  const ATTRIBUTE_KEYW: int := 259
  const ENUM_KEYW: int := 265
  const STRUCT_KEYW: int := 277
  const UNION_KEYW: int := 279
  const TYPEOF_KEYW: int := 283
  const EXPORT_SYMBOL_KEYW: int := 284
  const ASM_PHRASE: int := 285
  const ATTRIBUTE_PHRASE: int := 286
  const TYPEOF_PHRASE: int := 287
  const BRACE_PHRASE: int := 288
  const BRACKET_PHRASE: int := 289
  const EXPRESSION_PHRASE: int := 290
  const TYPE: int := 297

  // ----- What the list should hold -----

  /** The tokens but for the line markers. */
  function Visible(ts: seq<Token>): seq<Token> {
    if ts == [] then []
    else (if ts[0].code == FILENAME then [] else [ts[0]]) + Visible(ts[1..])
  }

  function Texts(ts: seq<Token>): seq<string> {
    seq(|ts|, i requires 0 <= i < |ts| => ts[i].text)
  }

  // ----- Phrases -----

  datatype Phrase = Attribute | Asm | Bracket | Brace | Expression

  predicate Opens(p: Phrase, c: int) {
    match p
    case Attribute => c == OPEN_PAREN
    case Asm => c == OPEN_PAREN
    case Bracket => c == OPEN_BRACKET
    case Brace => c == OPEN_BRACE
    case Expression => c == OPEN_PAREN || c == OPEN_BRACKET || c == OPEN_BRACE
  }

  predicate Closes(p: Phrase, c: int) {
    match p
    case Attribute => c == CLOSE_PAREN
    case Asm => c == CLOSE_PAREN
    case Bracket => c == CLOSE_BRACKET
    case Brace => c == CLOSE_BRACE
    case Expression => c == CLOSE_PAREN || c == CLOSE_BRACKET || c == CLOSE_BRACE
  }

  predicate Separates(c: int) {
    c == COMMA || c == SEMICOLON || c == CLOSE_BRACE
  }

  function Delta(p: Phrase, c: int): int {
    if Opens(p, c) then 1 else if Closes(p, c) then -1 else 0
  }

  /** How many more brackets the tokens open than they close. */
  function Depth(p: Phrase, ts: seq<Token>): int {
    if ts == [] then 0 else Depth(p, ts[..|ts| - 1]) + Delta(p, ts[|ts| - 1].code)
  }

  /** With depth d before the last of these tokens, the phrase ends at it: it closes the outermost
      bracket or, in an expression, is a separator outside all brackets. */
  predicate EndsAt(p: Phrase, d: int, ts: seq<Token>)
    requires ts != []
  {
    var c := ts[|ts| - 1].code;
    if p == Expression then Separates(c) && d + Depth(p, ts[..|ts| - 1]) == 0
    else Closes(p, c) && d + Depth(p, ts) == 0
  }

  /** Starting at depth d, how many tokens the rest of the phrase takes; the separator that ends
      an expression is not one of them.  No value if the phrase has no end. */
  function PhraseLength(p: Phrase, d: int, ts: seq<Token>): Option<nat>
    decreases |ts|
  {
    if ts == [] then None
    else if EndsAt(p, d, ts[..1]) then Some(if p == Expression then 0 else 1)
    else match PhraseLength(p, d + Delta(p, ts[0].code), ts[1..])
         case None => None
         case Some(n) => Some(n + 1)
  }

  lemma {:induction false} DepthFront(p: Phrase, t: Token, ts: seq<Token>)
    ensures Depth(p, [t] + ts) == Delta(p, t.code) + Depth(p, ts)
  {
    var s := [t] + ts;
    if ts == [] {
      assert s[..0] == [] && Depth(p, s[..0]) == 0;
    } else {
      assert s[..|s| - 1] == [t] + ts[..|ts| - 1];
      DepthFront(p, t, ts[..|ts| - 1]);
    }
  }

  lemma {:induction false} EndsAtFront(p: Phrase, d: int, t: Token, ts: seq<Token>)
    requires ts != []
    ensures EndsAt(p, d, [t] + ts) == EndsAt(p, d + Delta(p, t.code), ts)
  {
    var s := [t] + ts;
    assert s[..|s| - 1] == [t] + ts[..|ts| - 1];
    DepthFront(p, t, ts);
    DepthFront(p, t, ts[..|ts| - 1]);
  }

  /** The length is that of the shortest prefix at which the phrase ends, and there is one
      whenever the phrase ends at all. */
  lemma {:induction false} PhraseLengthMeans(p: Phrase, d: int, ts: seq<Token>)
    ensures var n := PhraseLength(p, d, ts);
            n.None? <==> forall k :: 0 < k <= |ts| ==> !EndsAt(p, d, ts[..k])
    ensures var n := PhraseLength(p, d, ts);
            n.Some? ==>
              var k := if p == Expression then n.value + 1 else n.value;
              0 < k <= |ts| && EndsAt(p, d, ts[..k]) && forall j :: 0 < j < k ==> !EndsAt(p, d, ts[..j])
    decreases |ts|
  {
    hide EndsAt, Delta;
    if ts == [] {
    } else if EndsAt(p, d, ts[..1]) {
    } else {
      var d', us := d + Delta(p, ts[0].code), ts[1..];
      PhraseLengthMeans(p, d', us);
      forall k | 1 < k <= |ts| ensures EndsAt(p, d, ts[..k]) == EndsAt(p, d', us[..k - 1]) {
        assert ts[..k] == [ts[0]] + us[..k - 1];
        EndsAtFront(p, d, ts[0], us[..k - 1]);
      }
      var n := PhraseLength(p, d', us);
      if n.None? {
        forall k | 0 < k <= |ts| ensures !EndsAt(p, d, ts[..k]) {
          assert k > 1 ==> EndsAt(p, d, ts[..k]) == EndsAt(p, d', us[..k - 1]);
        }
      } else {
        var k := if p == Expression then n.value + 1 else n.value;
        assert EndsAt(p, d, ts[..k + 1]) == EndsAt(p, d', us[..k]);
      }
    }
  }

  /** Inside a phrase that opens with its own bracket the depth stays positive, and it comes back
      to zero at the end. */
  lemma {:induction false} DepthInside(p: Phrase, ts: seq<Token>, k: nat)
    requires p != Expression && PhraseLength(p, 1, ts).Some? && k <= PhraseLength(p, 1, ts).value
    ensures PhraseLength(p, 1, ts).value <= |ts|
    ensures 1 + Depth(p, ts[..k]) >= 0
    ensures 1 + Depth(p, ts[..k]) == 0 <==> k == PhraseLength(p, 1, ts).value
  {
    PhraseLengthMeans(p, 1, ts);
    if k > 0 {
      DepthInside(p, ts, k - 1);
      assert ts[..k][..k - 1] == ts[..k - 1];
      assert EndsAt(p, 1, ts[..k]) <==> k == PhraseLength(p, 1, ts).value;
    } else {
      assert ts[..0] == [];
    }
  }

  // ----- What one call delivers -----

  /** Where the lexer stands between two tokens of the first stage.  The tables of exported
      symbols have states of their own. */
  datatype State = Normal | In(phrase: Phrase) | Typeof | TypeofStart | Table(part: nat)

  /** The keywords, and the names of types known when the call is made. */
  datatype Names = Names(reserved: map<string, nat>, typedefs: set<string>)

  /** The phrase that an identifier or a bracket starts outside all phrases, and its first depth. */
  function Starts(names: Names, brace: nat, t: Token): Option<(Phrase, int)> {
    if t.code == IDENT && t.text in names.reserved && names.reserved[t.text] == ATTRIBUTE_KEYW then Some((Attribute, 0))
    else if t.code == IDENT && t.text in names.reserved && names.reserved[t.text] == ASM_KEYW then Some((Asm, 0))
    else if t.code == OPEN_BRACKET then Some((Bracket, 1))
    else if t.code == OPEN_BRACE && brace == 0 then Some((Brace, 1))
    else None
  }

  predicate IsTypeof(names: Names, t: Token) {
    t.code == IDENT && t.text in names.reserved && names.reserved[t.text] == TYPEOF_KEYW
  }

  predicate IsTag(c: int) {
    c == STRUCT_KEYW || c == UNION_KEYW || c == ENUM_KEYW
  }

  /** The class of a token outside all phrases. */
  function Classify(names: Names, suppress: nat, t: Token): int {
    if t.code != IDENT then t.code
    else
      var c := if t.text in names.reserved then names.reserved[t.text] else IDENT;
      if IsTag(c) || c == EXPORT_SYMBOL_KEYW then c
      else if suppress == 0 && t.text in names.typedefs then TYPE
      else c
  }

  function PhraseToken(p: Phrase): int {
    match p
    case Attribute => ATTRIBUTE_PHRASE
    case Asm => ASM_PHRASE
    case Bracket => BRACKET_PHRASE
    case Brace => BRACE_PHRASE
    case Expression => EXPRESSION_PHRASE
  }

  /** A token of the second stage, how many visible tokens it takes, and the state it leaves. */
  datatype Delivery = Delivery(token: int, used: nat, state: State)

  /** The rest of a phrase; token 0 is the end of the input. */
  function PhraseDelivery(p: Phrase, d: int, ts: seq<Token>): Delivery {
    match PhraseLength(p, d, ts)
    case None => Delivery(0, |ts|, In(p))
    case Some(n) => Delivery(PhraseToken(p), n, Normal)
  }

  function After(n: nat, r: Delivery): Delivery {
    r.(used := n + r.used)
  }

  function Deliver(state: State, names: Names, suppress: nat, brace: nat, ts: seq<Token>): Delivery {
    if ts == [] then Delivery(0, 0, state)
    else if state == In(Expression) then PhraseDelivery(Expression, 0, ts)
    else match Starts(names, brace, ts[0])
         case Some((p, d)) => After(1, PhraseDelivery(p, d, ts[1..]))
         case None =>
           Delivery(Classify(names, suppress, ts[0]), 1,
             if ts[0].code == EQUALS || ts[0].code == COLON then In(Expression) else Normal)
  }

  // ----- What a typeof delivers -----

  const PAREN: Token := Token(OPEN_PAREN, "(")

  predicate Known(names: Names, word: string) {
    word in names.reserved || word in names.typedefs
  }

  /** The token a typeof delivers, the texts it collects, the tokens it leaves, and whether it has
      lost a parenthesis. */
  datatype TypeofEnd = TypeofEnd(token: int, texts: seq<string>, rest: seq<Token>, dropped: bool)

  function Taking(texts: seq<string>, lost: bool, r: TypeofEnd): TypeofEnd {
    r.(texts := texts + r.texts, dropped := lost || r.dropped)
  }

  /** The rest of a typeof; at its start, right behind a parenthesis that took the depth to one
      and was not collected, a type name makes it put everything back. */
  function TypeofRun(names: Names, start: bool, count: int, ts: seq<Token>): TypeofEnd
    decreases |ts|
  {
    if ts == [] then TypeofEnd(0, [], [], start)
    else if start then
      if ts[0].code != IDENT then Taking([ts[0].text], true, TypeofRun(names, false, count, ts[1..]))
      else if Known(names, ts[0].text) then TypeofEnd(TYPEOF_KEYW, [], [PAREN, ts[0]] + ts[1..], false)
      else Taking(["(", ts[0].text], false, TypeofRun(names, false, count, ts[1..]))
    else if ts[0].code == OPEN_PAREN && count == 0 then TypeofRun(names, true, 1, ts[1..])
    else if ts[0].code == CLOSE_PAREN && count == 1 then TypeofEnd(TYPEOF_PHRASE, [ts[0].text], ts[1..], false)
    else Taking([ts[0].text], false, TypeofRun(names, false, count + Delta(Attribute, ts[0].code), ts[1..]))
  }

  lemma TypeofStep(names: Names, start: bool, count: int, t: Token, us: seq<Token>)
    ensures var r := TypeofRun(names, start, count, [t] + us);
            if start then
              if t.code != IDENT then r == Taking([t.text], true, TypeofRun(names, false, count, us))
              else if Known(names, t.text) then r == TypeofEnd(TYPEOF_KEYW, [], [PAREN, t] + us, false)
              else r == Taking(["(", t.text], false, TypeofRun(names, false, count, us))
            else if t.code == OPEN_PAREN && count == 0 then r == TypeofRun(names, true, 1, us)
            else if t.code == CLOSE_PAREN && count == 1 then r == TypeofEnd(TYPEOF_PHRASE, [t.text], us, false)
            else r == Taking([t.text], false, TypeofRun(names, false, count + Delta(Attribute, t.code), us))
  {
    assert ([t] + us)[1..] == us;
  }

  lemma TakingTwice(texts: seq<string>, lost: bool, texts': seq<string>, lost': bool, r: TypeofEnd)
    ensures Taking(texts, lost, Taking(texts', lost', r)) == Taking(texts + texts', lost || lost', r)
  {
    assert texts + (texts' + r.texts) == texts + texts' + r.texts;
  }

  lemma {:induction false} NothingDroppedInside(names: Names, count: int, ts: seq<Token>)
    requires count > 0
    ensures !TypeofRun(names, false, count, ts).dropped
    decreases |ts|
  {
    if ts != [] && !(ts[0].code == CLOSE_PAREN && count == 1) {
      NothingDroppedInside(names, count + Delta(Attribute, ts[0].code), ts[1..]);
    }
  }

  // ----- What gets lost -----

  /** The texts kept are all of them but for n opening parentheses. */
  ghost predicate Missing(all: seq<string>, kept: seq<string>, n: nat)
    decreases |all|
  {
    if all == [] then kept == [] && n == 0
    else
      || (kept != [] && kept[0] == all[0] && Missing(all[1..], kept[1..], n))
      || (n > 0 && all[0] == "(" && Missing(all[1..], kept, n - 1))
  }

  /** Nothing but these parentheses is missing, and each of them is. */
  lemma {:induction false} MissingMeans(all: seq<string>, kept: seq<string>, n: nat)
    requires Missing(all, kept, n)
    ensures multiset(all) == multiset(kept) + multiset{}["(" := n]
    ensures n == 0 ==> kept == all
    decreases |all|
  {
    if all != [] {
      assert all == [all[0]] + all[1..];
      if kept != [] && kept[0] == all[0] && Missing(all[1..], kept[1..], n) {
        assert kept == [kept[0]] + kept[1..];
        MissingMeans(all[1..], kept[1..], n);
      } else {
        MissingMeans(all[1..], kept, n - 1);
      }
    }
  }

  lemma {:induction false} NothingMissing(all: seq<string>)
    ensures Missing(all, all, 0)
  {
    if all != [] {
      NothingMissing(all[1..]);
    }
  }

  lemma {:induction false} MissingBehind(front: seq<string>, all: seq<string>, kept: seq<string>, n: nat)
    requires Missing(all, kept, n)
    ensures Missing(front + all, front + kept, n)
  {
    if front == [] {
      assert front + all == all && front + kept == kept;
    } else {
      MissingBehind(front[1..], all, kept, n);
      assert (front + all)[1..] == front[1..] + all && (front + kept)[1..] == front[1..] + kept;
    }
  }

  lemma {:induction false} MissingTwice(all: seq<string>, some: seq<string>, kept: seq<string>, m: nat, n: nat)
    requires Missing(all, some, m) && Missing(some, kept, n)
    ensures Missing(all, kept, m + n)
    decreases |all|
  {
    if all != [] {
      if some != [] && some[0] == all[0] && Missing(all[1..], some[1..], m) {
        if kept != [] && kept[0] == some[0] && Missing(some[1..], kept[1..], n) {
          MissingTwice(all[1..], some[1..], kept[1..], m, n);
        } else {
          MissingTwice(all[1..], some[1..], kept, m, n - 1);
        }
      } else {
        MissingTwice(all[1..], some, kept, m - 1, n);
      }
    }
  }

  predicate Parens(ts: seq<Token>) {
    forall t :: t in ts && t.code == OPEN_PAREN ==> t == PAREN
  }

  lemma ParenMissing(all: seq<string>, kept: seq<string>, n: nat)
    requires Missing(all, kept, n)
    ensures Missing(["("] + all, kept, n + 1)
  {
    assert (["("] + all)[1..] == all;
  }

  /** One text more, and perhaps a parenthesis before it. */
  lemma {:induction false} OneMoreTaken(front: seq<string>, lost: bool, text: string, all: seq<string>, r: TypeofEnd)
    requires Missing(all, r.texts + Texts(r.rest), if r.dropped then 1 else 0)
    requires front == [] || front == ["("]
    requires lost ==> front == ["("] && !r.dropped
    ensures var r' := Taking((if lost then [] else front) + [text], lost, r);
            Missing(front + ([text] + all), r'.texts + Texts(r'.rest), if r'.dropped then 1 else 0)
  {
    hide Missing, Texts;
    var r' := Taking((if lost then [] else front) + [text], lost, r);
    var n := if r.dropped then 1 else 0;
    var kept := r.texts + Texts(r.rest);
    if lost {
      MissingBehind([text], all, kept, n);
      ParenMissing([text] + all, [text] + kept, n);
      assert r'.texts + Texts(r'.rest) == [text] + kept;
    } else {
      MissingBehind(front + [text], all, kept, n);
      assert front + ([text] + all) == front + [text] + all;
      assert r'.texts + Texts(r'.rest) == front + [text] + kept;
    }
  }

  /** What a typeof collects and leaves is what it was given, but for one parenthesis if it drops
      one. */
  lemma {:induction false} TypeofLoses(names: Names, start: bool, count: int, ts: seq<Token>)
    requires Parens(ts) && (start ==> count == 1)
    ensures var r := TypeofRun(names, start, count, ts);
            Missing((if start then ["("] else []) + Texts(ts), r.texts + Texts(r.rest), if r.dropped then 1 else 0)
    decreases |ts|
  {
    hide Missing, Texts;
    var front := if start then ["("] else [];
    var r := TypeofRun(names, start, count, ts);
    if ts == [] {
      NoTexts();
      NothingMissing([]);
      ParenMissing([], [], 0);
      assert front + [] == front && r.texts + Texts(r.rest) == [];
    } else {
      var t, us := ts[0], ts[1..];
      assert ts == [t] + us;
      TextsCons(t, us);
      TypeofStep(names, start, count, t, us);
      if start && t.code == IDENT && Known(names, t.text) {
        TextsCons(PAREN, [t] + us);
        assert [PAREN] + ([t] + us) == [PAREN, t] + us;
        NothingMissing(front + Texts(ts));
        assert r.texts + Texts(r.rest) == front + Texts(ts);
      } else if !start && t.code == OPEN_PAREN && count == 0 {
        assert t == PAREN;
        TypeofLoses(names, true, 1, us);
        assert front + Texts(ts) == ["("] + Texts(us);
      } else if !start && t.code == CLOSE_PAREN && count == 1 {
        NothingMissing(Texts(ts));
        assert front + Texts(ts) == Texts(ts);
      } else {
        var count' := if start then count else count + Delta(Attribute, t.code);
        TypeofLoses(names, false, count', us);
        NothingDroppedInside(names, 1, us);
        assert [] + Texts(us) == Texts(us);
        var r' := TypeofRun(names, false, count', us);
        OneMoreTaken(front, start && t.code != IDENT, t.text, Texts(us), r');
        assert ["("] + [t.text] == ["(", t.text] && [] + [t.text] == [t.text];
      }
    }
  }

  lemma TextsCons(t: Token, ts: seq<Token>)
    ensures Texts([t] + ts) == [t.text] + Texts(ts)
  {
  }

  lemma NoTexts()
    ensures Texts([]) == []
  {
  }

  /** Behind the start nothing is lost. */
  lemma {:induction false} NothingLostInside(names: Names, ts: seq<Token>)
    requires Parens(ts)
    ensures var r := TypeofRun(names, false, 1, ts); r.texts + Texts(r.rest) == Texts(ts) && !r.dropped
  {
    hide Missing, Texts, TypeofRun;
    NothingDroppedInside(names, 1, ts);
    TypeofLoses(names, false, 1, ts);
    assert [] + Texts(ts) == Texts(ts);
    var r := TypeofRun(names, false, 1, ts);
    MissingMeans(Texts(ts), r.texts + Texts(r.rest), 0);
  }

  /** A typeof with a parenthesis, as C has it, loses that parenthesis, and nothing else, exactly if
      no identifier follows. */
  lemma {:induction false} DroppedExactly(names: Names, ts: seq<Token>)
    requires Parens(ts) && ts != [] && ts[0] == PAREN
    ensures var r := TypeofRun(names, false, 0, ts);
            && (r.dropped <==> |ts| == 1 || ts[1].code != IDENT)
            && r.texts + Texts(r.rest) == Texts(if r.dropped then ts[1..] else ts)
  {
    hide Texts, TypeofRun;
    var us := ts[1..];
    assert ts == [PAREN] + us;
    TypeofStep(names, false, 0, PAREN, us);
    TextsCons(PAREN, us);
    if us == [] {
      TypeofCut(names, 1);
      NoTexts();
    } else {
      var t, vs := us[0], us[1..];
      assert us == [t] + vs;
      TypeofStep(names, true, 1, t, vs);
      TextsCons(t, vs);
      NothingLostInside(names, vs);
      assert [PAREN] + us == [PAREN, t] + vs;
    }
  }

  lemma TypeofCut(names: Names, count: int)
    ensures TypeofRun(names, true, count, []) == TypeofEnd(0, [], [], true)
    ensures TypeofRun(names, false, count, []) == TypeofEnd(0, [], [], false)
  {
  }

  /** With a type name behind the parenthesis a typeof takes nothing: the parser sees the
      parenthesis and the name as usual. */
  lemma {:induction false} TypeNamePutBack(names: Names, ts: seq<Token>)
    requires |ts| > 1 && ts[0] == PAREN && ts[1].code == IDENT && Known(names, ts[1].text)
    ensures TypeofRun(names, false, 0, ts) == TypeofEnd(TYPEOF_KEYW, [], ts, false)
  {
    assert TypeofRun(names, true, 1, ts[1..]).rest == [PAREN, ts[1]] + ts[1..][1..];
    assert [PAREN, ts[1]] + ts[1..][1..] == ts;
  }

  /** The separator that ends an expression is delivered next, by itself. */
  lemma {:induction false} SeparatorNext(names: Names, suppress: nat, brace: nat, ts: seq<Token>, names': Names,
      suppress': nat, brace': nat)
    requires Deliver(In(Expression), names, suppress, brace, ts).token == EXPRESSION_PHRASE
    ensures var n := Deliver(In(Expression), names, suppress, brace, ts).used;
            && n < |ts| && Separates(ts[n].code)
            && Deliver(Normal, names', suppress', brace', ts[n..]) == Delivery(ts[n].code, 1, Normal)
  {
    PhraseLengthMeans(Expression, 0, ts);
  }

  // ----- The lexer -----

  /** One token ends a phrase or moves its depth. */
  lemma {:induction false} PhraseStep(p: Phrase, d: int, ts: seq<Token>)
    requires ts != []
    ensures EndsAt(p, d, ts[..1]) ==
            if p == Expression then Separates(ts[0].code) && d == 0 else Closes(p, ts[0].code) && d == 1
    ensures EndsAt(p, d, ts[..1]) ==>
      PhraseDelivery(p, d, ts) == Delivery(PhraseToken(p), if p == Expression then 0 else 1, Normal)
    ensures !EndsAt(p, d, ts[..1]) ==>
      PhraseDelivery(p, d, ts) == After(1, PhraseDelivery(p, d + Delta(p, ts[0].code), ts[1..]))
  {
    assert ts[..1][..0] == [] && ts[..1][0] == ts[0];
    assert Depth(p, ts[..1]) == Delta(p, ts[0].code);
  }

  lemma OneMore(v: seq<Token>, u: nat, t: Token, w: seq<Token>)
    requires u <= |v| && v[u..] == [t] + w
    ensures u < |v| && v[u] == t && w == v[u + 1..] && v[u..][1..] == w
    ensures Texts(v[..u + 1]) == Texts(v[..u]) + [t.text]
  {
  }

  lemma TextsFront(t: Token, ts: seq<Token>, before: seq<string>)
    ensures before + Texts([t] + ts) == before + [t.text] + Texts(ts)
  {
  }

  lemma TextsSplit(v: seq<Token>, u: nat, before: seq<string>)
    requires u <= |v|
    ensures Texts(v[..0]) == []
    ensures before + Texts(v) == before + Texts(v[..u]) + Texts(v[u..])
  {
  }

  /** The first token, and n of the others. */
  lemma OneAndMore(v: seq<Token>, n: nat)
    requires 1 + n <= |v|
    ensures Texts(v[..1 + n]) == [v[0].text] + Texts(v[1..][..n])
    ensures v[1..][n..] == v[1 + n..]
  {
  }

  lemma PhraseCut(p: Phrase, d: int)
    ensures PhraseDelivery(p, d, []) == Delivery(0, 0, In(p))
  {
  }

  lemma ClassifyNotEnd(names: Names, suppress: nat, t: Token)
    requires t.code != 0 && forall w :: w in names.reserved ==> names.reserved[w] > 0
    ensures Classify(names, suppress, t) != 0
  {
  }

  /** A match as the scanner delivered it: at the start of a line or not, by which rule, and its
      text. */
  datatype Reading = Reading(bol: bool, rule: nat, text: seq<Types.Byte>)

  lemma EmptyStream()
    ensures forall bol :: Stream(bol, []) == []
  {
  }

  class Lexer {
    const reserved: map<string, nat>
    const scanner: FlexScanner.Scanner
    /** Every token of the first stage. */
    ghost const all: seq<Token>

    /** The tokens the first stage has yet to deliver. */
    ghost var rest: seq<Token>
    /** A NUL has been delivered, which is taken for the end of the input. */
    ghost var nul: bool
    /** The last match. */
    ghost var last: Reading
    /** How many parentheses have been dropped. */
    ghost var lost: nat
    var lexstate: State
    var suppress: nat
    var brace: nat
    /** The texts collected. */
    var list: seq<string>

    ghost predicate Valid()
      reads this, scanner, scanner.chBuf
    {
      && Open()
      && Between()
      // what is collected and what is to come make up the input, but for the parentheses dropped
      && Missing(Texts(Visible(all)), list + Texts(Visible(rest)), lost)
    }

    /** Between two calls no phrase is open but by the end of the input, and no table is ever
        entered. */
    ghost predicate Between()
      reads `rest, `lexstate
    {
      (lexstate == Normal || lexstate == In(Expression) || Visible(rest) == []) && !lexstate.Table?
    }

    /** What holds even while a phrase is open. */
    ghost predicate Open()
      reads `rest, `nul, scanner, scanner.chBuf
    {
      && scanner.Valid() && scanner.t == GenksymsTables.Genksyms()
      && rest == (if nul then [] else Stream(scanner.atBol, scanner.Pending()))
      // what has been put back and not read again is at most one character, which starts no name
      && (scanner.back == 0 || (scanner.back == 1 && rest != [] && rest[0].code != IDENT))
      && (forall w :: w in reserved ==> reserved[w] > 0)
    }

    /** The token t has just been read. */
    ghost predicate JustRead(t: Token)
      requires scanner.Valid()
      reads `nul, `last, scanner, scanner.chBuf
    {
      && !nul && |last.text| > 0 && !Skipped(last.rule) && t == Word(last.rule, last.text)
      && scanner.TextIs(last.text) && scanner.atBol == FlexTables.AfterNewline(last.text)
      && scanner.back == 0 && (t.code == IDENT ==> scanner.backBefore == 0)
      && Matches(last.bol, last.text + scanner.Pending(), |last.text|, last.rule)
    }

    constructor (reserved: map<string, nat>, scanner: FlexScanner.Scanner)
      requires scanner.Valid() && scanner.t == GenksymsTables.Genksyms() && scanner.back == 0
      requires forall w :: w in reserved ==> reserved[w] > 0
      ensures Valid() && rest == all == Stream(scanner.atBol, scanner.Pending()) && list == [] && lost == 0 && !nul
      ensures this.reserved == reserved && this.scanner == scanner
      ensures lexstate == Normal && suppress == 0 && brace == 0
    {
      hide Stream, Missing, Visible, Texts, GenksymsTables.Genksyms, FlexTables.WellFormed,
        FlexScanner.Scanner.Valid, FlexScanner.Scanner.Pending;
      this.reserved, this.scanner := reserved, scanner;
      all, rest := Stream(scanner.atBol, scanner.Pending()), Stream(scanner.atBol, scanner.Pending());
      nul, last, lost := false, Reading(false, 0, []), 0;
      lexstate, suppress, brace, list := Normal, 0, 0, [];
      new;
      NothingMissing(Texts(Visible(all)));
      assert list + Texts(Visible(rest)) == Texts(Visible(all));
    }

    /** The scanner's next match. */
    method NextMatch() returns (m: Option<FlexTables.Token>)
      requires scanner.Valid() && scanner.t == GenksymsTables.Genksyms()
      modifies `last, scanner, scanner.chBuf
      ensures scanner.Valid() && (scanner.chBuf == old(scanner.chBuf) || fresh(scanner.chBuf))
      ensures m.None? ==> old(scanner.Pending()) == [] == scanner.Pending() && scanner.back == old(scanner.back)
      ensures m.Some? ==> scanner.Took(old(scanner.back))
      ensures m.Some? ==>
        && last.rule == m.value.rule && last.text == m.value.text && |last.text| > 0 &&
            last.bol == old(scanner.atBol) && old(scanner.Pending()) == last.text + scanner.Pending()
        && scanner.TextIs(last.text) && scanner.atBol == FlexTables.AfterNewline(last.text)
        && Matches(last.bol, last.text + scanner.Pending(), |last.text|, last.rule)
    {
      hide GenksymsTables.Genksyms, FlexTables.WellFormed, FlexTables.RuleAt, FlexTables.Longest,
        FlexScanner.Scanner.TextIs;
      ghost var input, bol := scanner.Pending(), scanner.atBol;
      var r := scanner.Scan();
      m := None;
      if r.Matched? {
        m := Some(r.token);
        last := Reading(bol, r.token.rule, r.token.text);
        assert r.token.text + scanner.Pending() == input;
      }
    }

    /** The first stage: the scanner's next token that is not white space. */
    method FirstStage() returns (t: Option<Token>)
      requires Open() && !nul
      modifies `rest, `nul, `last, scanner, scanner.chBuf
      ensures Open() && (scanner.chBuf == old(scanner.chBuf) || fresh(scanner.chBuf))
      ensures t.None? ==> old(rest) == [] == rest
      ensures t.Some? ==> !nul && old(rest) == [t.value] + rest && t.value.code != 0 && JustRead(t.value)
    {
      hide Stream, Matches, GenksymsTables.Genksyms, FlexTables.WellFormed, FlexTables.AfterNewline,
        FlexScanner.Scanner.Valid, FlexScanner.Scanner.Pending, FlexScanner.Scanner.TextIs, Skipped, Code, Chars, Texts;
      while true
        invariant Open() && !nul && rest == old(rest)
        invariant scanner.chBuf == old(scanner.chBuf) || fresh(scanner.chBuf)
        decreases |scanner.Pending()|
      {
        var m := NextMatch();
        if m.None? {
          EmptyStream();
          return None;
        }
        StreamStep(last.bol, last.text, scanner.Pending(), last.rule);
        if !Skipped(m.value.rule) {
          var t := Word(m.value.rule, m.value.text);
          if t.code == 0 {
            nul, rest := true, [];
            return None;
          }
          rest := Stream(scanner.atBol, scanner.Pending());
          return Some(t);
        }
      }
    }

    /** Takes the next token that is not a line marker. */
    method Read() returns (t: Option<Token>)
      requires Open() && !nul
      modifies `rest, `nul, `last, scanner, scanner.chBuf
      ensures Open() && (scanner.chBuf == old(scanner.chBuf) || fresh(scanner.chBuf))
      ensures t.None? ==> old(Visible(rest)) == [] == Visible(rest)
      ensures t.Some? ==>
        && !nul && t.value.code != 0 && t.value.code != FILENAME && (t.value.code == OPEN_PAREN ==> t.value == PAREN)
        && old(Visible(rest)) == [t.value] + Visible(rest) && JustRead(t.value)
    {
      hide Open, JustRead, Word, FlexScanner.Scanner.Valid;
      while true
        invariant Open() && !nul && Visible(rest) == old(Visible(rest))
        invariant scanner.chBuf == old(scanner.chBuf) || fresh(scanner.chBuf)
        decreases |rest|
      {
        ghost var before := rest;
        t := FirstStage();
        if t.None? {
          return;
        }
        assert before[1..] == rest;
        if t.value.code != FILENAME {
          CharacterRead(t.value);
          return;
        }
      }
    }

    /** A character that has just been read is in the text. */
    lemma {:induction false} CharacterRead(t: Token)
      requires Open() && JustRead(t)
      ensures 0 <= t.code < 128 ==> last.text == [t.code] && t == Token(t.code, [t.code as char])
    {
      hide Matches, Stream, FlexScanner.Scanner.Valid, FlexScanner.Scanner.Pending, FlexScanner.Scanner.TextIs;
      if 0 <= t.code < 128 {
        SingleWord(last.bol, last.text, scanner.Pending(), last.rule);
      }
    }

    /** Puts the separator that has just been read back into the buffer, which has room for it; it
        will be read again. */
    method PutBack(t: Token)
      requires Open() && JustRead(t) && 0 <= t.code < 128 && Alone(t.code)
      modifies `rest, scanner, scanner.chBuf
      ensures Open() && scanner.chBuf == old(scanner.chBuf)
      ensures rest == [t] + old(rest)
    {
      hide Stream, Matches, FlexTables.WellFormed, FlexScanner.Scanner.Valid, FlexScanner.Scanner.Pending,
        FlexScanner.Scanner.TextIs;
      CharacterRead(t);
      RoomForOne();
      ghost var pending := scanner.Pending();
      var ok := scanner.Unput(t.code);
      assert ok;
      AloneNext(false, t.code, pending);
      rest := [t] + rest;
    }

    lemma RoomForOne()
      requires scanner.TextIs(last.text) && |last.text| > 0
      ensures scanner.cBufP >= 2 || scanner.cBufP + (scanner.bufSize - scanner.nChars) >= 2
    {
    }

    /** There is room to put a parenthesis before the text. */
    ghost predicate RoomBefore()
      reads scanner
    {
      scanner.textPtr >= 2 || scanner.textPtr + (scanner.bufSize - scanner.nChars) >= 2
    }

    /** When some refill came, a match had run so far that it kept all but one read of the buffer. */
    ghost predicate RanAhead()
      reads scanner`kept, scanner`keptBol
    {
      FlexTables.WellFormed(scanner.t) && scanner.Ran() &&
          scanner.size <= |scanner.kept| + FlexScanner.READ_BUF_SIZE + 1
    }

    lemma NoRoom()
      requires scanner.Valid() && scanner.TextIs(last.text) && scanner.backBefore == 0 && !RoomBefore()
      ensures RanAhead()
    {
      hide FlexTables.WellFormed, FlexScanner.Scanner.Ran;
    }

    /** Puts the identifier that has just been read back, and a parenthesis before it.  Without room
        for the parenthesis the program ends. */
    method PutBackName(t: Token) returns (ok: bool)
      requires Open() && JustRead(t) && t.code == IDENT
      modifies `rest, scanner, scanner.chBuf
      ensures ok == old(RoomBefore())
      ensures !ok ==> RanAhead()
      ensures scanner.chBuf == old(scanner.chBuf)
      ensures ok ==> Open() && rest == [PAREN, t] + old(rest)
      ensures !ok ==> rest == old(rest)
    {
      hide Stream, Matches, RanAhead, FlexTables.WellFormed, FlexScanner.Scanner.Ran;
      ghost var pending := scanner.Pending();
      if !RoomBefore() {
        NoRoom();
      }
      scanner.Less(0, last.text);
      assert scanner.Pending() == last.text + pending;
      ok := scanner.Unput(OPEN_PAREN);
      if ok {
        IdentifierNext(last.bol, scanner.atBol, last.text, pending);
        rest := [PAREN, t] + rest;
      }
    }

    /** One token inside a phrase that ends with a bracket. */
    method InBrackets(p: Phrase, t: Token, count: int) returns (again: bool, count': int)
      requires p != Expression
      modifies `list, `lexstate
      ensures list == old(list) + [t.text]
      ensures again == !(Closes(p, t.code) && count == 1) && count' == count + Delta(p, t.code)
      ensures lexstate == if again then old(lexstate) else Normal
    {
      list := list + [t.text];
      again, count' := true, count;
      if Opens(p, t.code) {
        count' := count + 1;
      } else if Closes(p, t.code) {
        count' := count - 1;
        if count' == 0 {
          lexstate := Normal;
          again := false;
        }
      }
    }

    /** One token outside all phrases. */
    method Outside(names: Names, t: Token) returns (again: bool, token: int, count: int)
      requires names.reserved == reserved && lexstate == Normal && t.code != FILENAME
      modifies `list, `lexstate, `suppress, `brace
      ensures list == old(list) + [t.text]
      ensures IsTypeof(names, t) ==> again && lexstate == Typeof
      ensures !IsTypeof(names, t) ==>
        match Starts(names, old(brace), t)
        case Some((p, d)) => again && lexstate == In(p) && count == d
        case None =>
          && !again && token == Classify(names, old(suppress), t)
          && lexstate == if t.code == EQUALS || t.code == COLON then In(Expression) else Normal
      ensures again ==> suppress == old(suppress) && brace == old(brace)
      ensures !again ==>
        (suppress, brace) == if t.code == IDENT && IsTag(token) then (2, 3) else (old(suppress), old(brace))
    {
      list := list + [t.text];
      again, token, count := false, t.code, 0;
      if t.code == IDENT {
        if t.text in reserved {
          token := reserved[t.text];
          if token == ATTRIBUTE_KEYW {
            lexstate := In(Attribute);
            again := true;
            return;
          } else if token == ASM_KEYW {
            lexstate := In(Asm);
            again := true;
            return;
          } else if token == TYPEOF_KEYW {
            lexstate := Typeof;
            again := true;
            return;
          } else if IsTag(token) {
            brace, suppress := 3, 2;
            return;
          } else if token == EXPORT_SYMBOL_KEYW {
            return;
          }
        }
        if suppress == 0 && t.text in names.typedefs {
          token := TYPE;
        }
      } else if t.code == OPEN_BRACKET {
        lexstate, count := In(Bracket), 1;
        again := true;
      } else if t.code == OPEN_BRACE {
        if brace == 0 {
          lexstate, count := In(Brace), 1;
          again := true;
        }
      } else if t.code == EQUALS || t.code == COLON {
        lexstate := In(Expression);
      }
    }

    /** One token inside an expression. */
    method InExpression(t: Token, count: int) returns (again: bool, count': int)
      requires Open() && JustRead(t) && t.code != FILENAME
      modifies `list, `lexstate, `rest, scanner, scanner.chBuf
      ensures Open() && scanner.chBuf == old(scanner.chBuf)
      ensures again == !(Separates(t.code) && count == 0)
      ensures again ==> list == old(list) + [t.text] && rest == old(rest) && lexstate == old(lexstate)
      ensures again ==> count' == count + Delta(Expression, t.code)
      ensures !again ==> list == old(list) && lexstate == Normal && Visible(rest) == [t] + old(Visible(rest))
    {
      hide Open, JustRead, FlexScanner.Scanner.Valid;
      again, count' := true, count;
      if Opens(Expression, t.code) {
        count' := count + 1;
      } else if Separates(t.code) && count == 0 {
        ghost var before := rest;
        PutBack(t);
        assert rest[1..] == before;
        lexstate := Normal;
        again := false;
        return;
      } else if Closes(Expression, t.code) {
        count' := count - 1;
      }
      list := list + [t.text];
    }

    /** One token inside a typeof, which is at its start if start holds.  The texts taken, and
        whether a parenthesis is lost, add to what the rest of the typeof does. */
    method InTypeof(names: Names, t: Token, count: int)
      returns (ok: bool, again: bool, token: int, count': int, ghost taken: seq<string>, ghost drop: bool)
      requires (lexstate == Typeof || (lexstate == TypeofStart && count == 1)) && names.reserved == reserved
      requires Open() && JustRead(t) && t.code != 0 && t.code != FILENAME
      requires t.code == OPEN_PAREN ==> t == PAREN
      modifies `list, `lexstate, `rest, scanner, scanner.chBuf
      ensures scanner.chBuf == old(scanner.chBuf)
      ensures !ok <==> old(lexstate) == TypeofStart && t.code == IDENT && Known(names, t.text) && !old(RoomBefore())
      ensures !ok ==> RanAhead() && rest == old(rest) && count' == count
      ensures ok ==> Open() && list == old(list) + taken
      ensures ok ==>
        var r := TypeofRun(names, old(lexstate) == TypeofStart, count, [t] + old(Visible(rest)));
        if again then
          && (lexstate == Typeof || (lexstate == TypeofStart && count' == 1)) && rest == old(rest)
          && r == Taking(taken, drop, TypeofRun(names, lexstate == TypeofStart, count', Visible(rest)))
        else
          && (token == TYPEOF_KEYW || token == TYPEOF_PHRASE) && lexstate == Normal
          && r == TypeofEnd(token, taken, Visible(rest), drop)
    {
      hide Open, JustRead, RoomBefore, TypeofRun, FlexScanner.Scanner.Valid;
      TypeofStep(names, lexstate == TypeofStart, count, t, Visible(rest));
      ok, again, token, count' := true, true, t.code, count;
      taken, drop := [t.text], false;
      if lexstate == TypeofStart {
        if t.code == IDENT {
          if t.text in reserved || t.text in names.typedefs {
            ghost var before := rest;
            ok := PutBackName(t);
            if ok {
              assert rest[1..] == [t] + before && rest[1..][1..] == before;
              assert [PAREN] + ([t] + Visible(before)) == [PAREN, t] + Visible(before);
              lexstate, token := Normal, TYPEOF_KEYW;
              again, taken := false, [];
              assert list + taken == list;
            }
            return;
          }
          list := list + ["("];
          taken := ["(", t.text];
        } else {
          drop := true;
        }
        list := list + [t.text];
        lexstate := Typeof;
      } else if t.code == OPEN_PAREN {
        count' := count + 1;
        if count' == 1 {
          lexstate := TypeofStart;
          taken := [];
        } else {
          list := list + [t.text];
        }
      } else if t.code == CLOSE_PAREN {
        list := list + [t.text];
        count' := count - 1;
        if count' == 0 {
          lexstate, token := Normal, TYPEOF_PHRASE;
          again := false;
        }
      } else {
        list := list + [t.text];
      }
    }

    /** The rest of a typeof. */
    method FinishTypeof(names: Names) returns (ok: bool, token: int)
      requires Open() && !nul && names.reserved == reserved
      requires lexstate == Typeof || (lexstate == TypeofStart && Visible(rest) == [])
      modifies `rest, `nul, `last, `lexstate, `list, scanner, scanner.chBuf
      ensures scanner.chBuf == old(scanner.chBuf) || fresh(scanner.chBuf)
      ensures ok ==>
        && Open() && (token == 0 ==> Visible(rest) == [])
        && (lexstate == Normal || ((lexstate == Typeof || lexstate == TypeofStart) && Visible(rest) == []))
      ensures token == 0 || ((token == TYPEOF_KEYW || token == TYPEOF_PHRASE) && (ok ==> !nul && lexstate == Normal))
      ensures old(Visible(rest)) == [] ==>
        ok && token == 0 && lexstate == old(lexstate) && list == old(list) && Visible(rest) == []
      ensures old(lexstate) == Typeof ==>
        var r := TypeofRun(names, false, 0, old(Visible(rest)));
        if ok then token == r.token && Visible(rest) == r.rest && list == old(list) + r.texts
        else r.token == TYPEOF_KEYW && RanAhead()
    {
      hide Visible, Open, JustRead, RoomBefore, TypeofRun, FlexScanner.Scanner.Valid;
      var count, again := 0, true;
      ok, token := true, 0;
      ghost var taken, drop := [], false;
      ghost var r := TypeofRun(names, false, 0, Visible(rest));
      while again
        invariant ok && Open() && list == old(list) + taken &&
            (scanner.chBuf == old(scanner.chBuf) || fresh(scanner.chBuf))
        invariant if again then !nul && (lexstate == Typeof || lexstate == TypeofStart) else lexstate == Normal
        invariant !again ==> !nul
        invariant !again ==> token == TYPEOF_KEYW || token == TYPEOF_PHRASE
        invariant old(Visible(rest)) == [] ==> again && lexstate == old(lexstate) && taken == [] && Visible(rest) == []
        invariant old(lexstate) == Typeof ==>
          && (lexstate == TypeofStart ==> count == 1)
          && (again ==> r == Taking(taken, drop, TypeofRun(names, lexstate == TypeofStart, count, Visible(rest))))
          && (!again ==> r == TypeofEnd(token, taken, Visible(rest), drop))
        decreases again, |Visible(rest)|
      {
        var t := Read();
        if t.None? {
          token := 0;
          TypeofCut(names, count);
          return;
        }
        ghost var texts, lost;
        ok, again, token, count, texts, lost := InTypeof(names, t.value, count);
        if !ok {
          token := TYPEOF_KEYW;
          TypeofStep(names, true, count, t.value, Visible(rest));
          return;
        }
        TakingTwice(taken, drop, texts, lost, TypeofRun(names, lexstate == TypeofStart, count, Visible(rest)));
        taken, drop := taken + texts, drop || lost;
      }
    }

    /** The rest of a phrase. */
    method FinishPhrase(p: Phrase, count0: int) returns (token: int)
      requires Open() && !nul && lexstate == In(p)
      modifies `rest, `nul, `last, `lexstate, `list, scanner, scanner.chBuf
      ensures Open() && (scanner.chBuf == old(scanner.chBuf) || fresh(scanner.chBuf))
      ensures var v := old(Visible(rest));
              var r := PhraseDelivery(p, count0, v);
              && token == r.token && lexstate == r.state && r.used <= |v|
              && Visible(rest) == v[r.used..] && list == old(list) + Texts(v[..r.used])
      ensures if token == 0 then lexstate == In(p) && Visible(rest) == []
              else token == PhraseToken(p) && lexstate == Normal && !nul
    {
      hide Visible, Texts, PhraseDelivery, EndsAt, Depth, Closes, Opens, Delta, Separates, Open, JustRead,
        FlexScanner.Scanner.Valid;
      ghost var v, u: nat := Visible(rest), 0;
      ghost var r := PhraseDelivery(p, count0, v);
      var count, again := count0, true;
      TextsSplit(v, 0, list);
      assert v[0..] == v;
      while again
        invariant Open() && (scanner.chBuf == old(scanner.chBuf) || fresh(scanner.chBuf))
        invariant u <= |v| && Visible(rest) == v[u..] && list == old(list) + Texts(v[..u])
        invariant again ==> !nul && lexstate == In(p) && r == After(u, PhraseDelivery(p, count, v[u..]))
        invariant !again ==> !nul && r == Delivery(PhraseToken(p), u, Normal) && lexstate == Normal
        decreases again, |Visible(rest)|
      {
        var t := Read();
        if t.None? {
          PhraseCut(p, count);
          token := 0;
          return;
        }
        OneMore(v, u, t.value, Visible(rest));
        PhraseStep(p, count, v[u..]);
        if p == Expression {
          again, count := InExpression(t.value, count);
          u := if again then u + 1 else u;
        } else {
          u := u + 1;
          again, count := InBrackets(p, t.value, count);
        }
      }
      token := PhraseToken(p);
    }

    /** What a call on the tokens v has delivered and done to the list and to what is to come. */
    ghost predicate Called(names: Names, state: State, suppress0: nat, brace0: nat, before: seq<string>, v: seq<Token>,
      ok: bool, token: int)
      reads `rest, `lexstate, `list, scanner
    {
      if state == Normal && v != [] && IsTypeof(names, v[0]) then
        var r := TypeofRun(names, false, 0, v[1..]);
        if ok then
          && token == r.token && Visible(rest) == r.rest && list == before + [v[0].text] + r.texts
          && (token != 0 ==> lexstate == Normal)
        else r.token == TYPEOF_KEYW && RanAhead()
      else
        var r := Deliver(state, names, suppress0, brace0, v);
        && ok && token == r.token && lexstate == r.state && r.used <= |v|
        && Visible(rest) == v[r.used..] && list == before + Texts(v[..r.used])
    }

    /** How many parentheses such a call drops. */
    static function Dropped(names: Names, state: State, v: seq<Token>): nat {
      if state == Normal && v != [] && IsTypeof(names, v[0]) && TypeofRun(names, false, 0, v[1..]).dropped then 1 else 0
    }

    /** From the normal state. */
    method FromNormal(names: Names) returns (ok: bool, token: int)
      requires Open() && !nul && lexstate == Normal && names.reserved == reserved
      modifies `rest, `nul, `last, `lexstate, `suppress, `brace, `list, scanner, scanner.chBuf
      ensures scanner.chBuf == old(scanner.chBuf) || fresh(scanner.chBuf)
      ensures Called(names, Normal, old(suppress), old(brace), old(list), old(Visible(rest)), ok, token)
      ensures ok ==> Open() && Between() && if token == 0 then Visible(rest) == [] else !nul
      ensures token != 0 ==> old(Visible(rest)) != []
      ensures ok ==>
        var tag := old(Visible(rest)) != [] && old(Visible(rest))[0].code == IDENT && IsTag(token);
        (suppress, brace) == if tag then (2, 3) else old((suppress, brace))
    {
      hide Visible, Texts, Starts, Classify, IsTypeof, PhraseDelivery, JustRead, TypeofRun, FlexScanner.Scanner.Valid,
        FlexScanner.Scanner.Pending, Stream;
      ghost var v := Visible(rest);
      TextsSplit(v, 0, list);
      ok := true;
      var t := Read();
      if t.None? {
        return true, 0;
      }
      OneMore(v, 0, t.value, Visible(rest));
      ClassifyNotEnd(names, suppress, t.value);
      var again, count;
      again, token, count := Outside(names, t.value);
      TextsSplit(v, 1, old(list));
      if lexstate == Typeof {
        ok, token := FinishTypeof(names);
      } else if again {
        ghost var r := PhraseDelivery(lexstate.phrase, count, v[1..]);
        token := FinishPhrase(lexstate.phrase, count);
        OneAndMore(v, r.used);
        TextsSplit(v, 1 + r.used, old(list));
      }
    }

    /** From any other state; a phrase that is no expression has been cut by the end of the input. */
    method FromPhrase(names: Names) returns (token: int)
      requires Open() && Between() && !nul && lexstate != Normal && names.reserved == reserved
      modifies `rest, `nul, `last, `lexstate, `list, scanner, scanner.chBuf
      ensures scanner.chBuf == old(scanner.chBuf) || fresh(scanner.chBuf)
      ensures Called(names, old(lexstate), suppress, brace, old(list), old(Visible(rest)), true, token)
      ensures Open() && Between() && if token == 0 then Visible(rest) == [] else !nul
    {
      hide Visible, Texts, PhraseDelivery, Open, TypeofRun, FlexScanner.Scanner.Valid;
      ghost var v := Visible(rest);
      TextsSplit(v, 0, list);
      if lexstate.In? {
        PhraseCut(lexstate.phrase, 0);
        token := FinishPhrase(lexstate.phrase, 0);
      } else {
        var ok;
        ok, token := FinishTypeof(names);
      }
    }

    /** A call that delivers a token takes one, or ends an expression. */
    lemma {:induction false} CalledShrinks(names: Names, state: State, suppress0: nat, brace0: nat,
        before: seq<string>, v: seq<Token>, token: int)
      requires Called(names, state, suppress0, brace0, before, v, true, token) && token != 0
      requires state == Normal || state == In(Expression)
      ensures v != [] && |Visible(rest)| <= |v| && (|Visible(rest)| < |v| || (state != Normal && lexstate == Normal))
    {
      hide Visible, Texts, IsTypeof, Starts, Classify;
      if state == Normal && v != [] && IsTypeof(names, v[0]) {
        TypeofLeaves(names, false, 0, v[1..]);
      }
    }

    static lemma {:induction false} TypeofLeaves(names: Names, start: bool, count: int, ts: seq<Token>)
      requires start ==> count == 1
      ensures |TypeofRun(names, start, count, ts).rest| <= |ts| + if start then 1 else 0
      decreases |ts|
    {
      if ts != [] {
        TypeofLeaves(names, false, if start then count else count + Delta(Attribute, ts[0].code), ts[1..]);
        TypeofLeaves(names, true, 1, ts[1..]);
      }
    }

    /** A call keeps account of all texts. */
    lemma {:induction false} Accounted(names: Names, state: State, suppress0: nat, brace0: nat,
        before: seq<string>, v: seq<Token>, token: int)
      requires Called(names, state, suppress0, brace0, before, v, true, token) && Parens(v)
      ensures Missing(before + Texts(v), list + Texts(Visible(rest)), Dropped(names, state, v))
    {
      hide Visible, Texts, Missing, Deliver, TypeofRun, IsTypeof;
      if state == Normal && v != [] && IsTypeof(names, v[0]) {
        var r := TypeofRun(names, false, 0, v[1..]);
        TypeofLoses(names, false, 0, v[1..]);
        assert [] + Texts(v[1..]) == Texts(v[1..]);
        MissingBehind(before + [v[0].text], Texts(v[1..]), r.texts + Texts(r.rest), if r.dropped then 1 else 0);
        assert [v[0]] + v[1..] == v;
        TextsFront(v[0], v[1..], before);
        assert before + [v[0].text] + (r.texts + Texts(r.rest)) == list + Texts(Visible(rest));
      } else {
        TextsSplit(v, Deliver(state, names, suppress0, brace0, v).used, before);
        NothingMissing(before + Texts(v));
      }
    }

    lemma {:induction false} ParensAhead()
      requires Open()
      ensures Parens(Visible(rest))
    {
      hide Stream, FlexScanner.Scanner.Valid, FlexScanner.Scanner.Pending;
      CharacterTokens(scanner.atBol, scanner.Pending());
      VisibleAmong(rest);
    }

    static lemma {:induction false} VisibleAmong(ts: seq<Token>)
      ensures forall t :: t in Visible(ts) ==> t in ts
    {
      if ts != [] {
        VisibleAmong(ts[1..]);
      }
    }

    /** One token of the second stage; 0 at the end of the input.  It fails only where a typeof finds
        the name of a type right at the start of a full buffer. */
    method Lex(typedefs: set<string>) returns (ok: bool, token: int)
      requires Valid() && !nul
      modifies `rest, `nul, `last, `lost, `lexstate, `suppress, `brace, `list, scanner, scanner.chBuf
      ensures scanner.chBuf == old(scanner.chBuf) || fresh(scanner.chBuf)
      ensures Called(Names(reserved, typedefs), old(lexstate), old(suppress), old(brace), old(list),
          old(Visible(rest)), ok, token)
      ensures ok ==>
        Valid() && lost == old(lost) + Dropped(Names(reserved, typedefs), old(lexstate), old(Visible(rest)))
      ensures ok ==> if token == 0 then Visible(rest) == [] else !nul
      ensures ok ==>
        var v := old(Visible(rest));
        (suppress, brace) ==
          if token == 0 then old((suppress, brace))
          else if old(lexstate) == Normal && v[0].code == IDENT && IsTag(token) then (1, 2)
          else (Less(old(suppress)), Less(old(brace)))
    {
      hide Visible, Texts, Missing, Open, Between, Called, Dropped, FlexScanner.Scanner.Valid;
      var names := Names(reserved, typedefs);
      ghost var v, before, state := Visible(rest), list, lexstate;
      ParensAhead();
      if lexstate == Normal {
        ok, token := FromNormal(names);
      } else {
        token := FromPhrase(names);
        ok := true;
      }
      if ok {
        Accounted(names, state, old(suppress), old(brace), before, v, token);
        MissingTwice(Texts(Visible(all)), before + Texts(v), list + Texts(Visible(rest)), lost,
            Dropped(names, state, v));
        lost := lost + Dropped(names, state, v);
        if token != 0 {
          suppress, brace := Less(suppress), Less(brace);
        }
      }
    }
  }

  function Less(n: nat): nat {
    if n > 0 then n - 1 else 0
  }
}
