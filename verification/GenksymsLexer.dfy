/** The lexer of genksyms as the program runs it: on its own tables, its own buffer and the keywords
    that its hash finds. */
module GenksymsLexer {
  import opened FirstStage
  import opened PhraseLexer
  import opened TokenRules
  import opened Types
  import opened Wrappers

  import FlexScanner
  import GenksymsTables
  import KeywordHash

  const TYPEOF_WORDS: set<string> := {"typeof", "__typeof", "__typeof__"}
  const ATTRIBUTE_WORDS: set<string> := {"__attribute", "__attribute__"}
  const ASM_WORDS: set<string> := {"asm", "__asm", "__asm__"}

  /** The words that the second stage knows are those the hash finds, with the tokens it finds. */
  lemma {:induction false} ReservedIsLookup(word: string)
    ensures word in KeywordHash.Reserved() <==> KeywordHash.Lookup(word).Some?
    ensures KeywordHash.Lookup(word).Some? ==>
      KeywordHash.Lookup(word).value < 101 &&
      KeywordHash.Reserved()[word] == KeywordHash.Token(KeywordHash.Lookup(word).value)
  {
    hide KeywordHash.Word, KeywordHash.Token, KeywordHash.Lookup;
    KeywordHash.ReservedKeywords();
    KeywordHash.LookupIsMap(KeywordHash.Reserved(), word);
  }

  /** With the shipped keywords, which words start a typeof, an attribute or assembler. */
  lemma {:induction false} PhraseWords(names: Names, brace: nat, t: Token)
    requires names.reserved == KeywordHash.Reserved() && t.code == IDENT
    ensures IsTypeof(names, t) <==> t.text in TYPEOF_WORDS
    ensures Starts(names, brace, t) ==
            if t.text in ATTRIBUTE_WORDS then Some((Attribute, 0))
            else if t.text in ASM_WORDS then Some((Asm, 0))
            else None
  {
    hide KeywordHash.Reserved, KeywordHash.Words;
    WordsWritten();
    ReservedExactly(names, t.text);
  }

  /** The lexer at the start of a source. */
  method Start(source: seq<Byte>) returns (lexer: Lexer)
    ensures fresh(lexer) && fresh(lexer.scanner) && fresh(lexer.scanner.chBuf)
    ensures lexer.Valid() && lexer.rest == lexer.all == Stream(true, source) && lexer.list == [] &&
        lexer.lost == 0 && !lexer.nul
    ensures lexer.lexstate == Normal && lexer.suppress == 0 && lexer.brace == 0
    ensures lexer.reserved == KeywordHash.Reserved() && lexer.scanner.size == FlexScanner.YY_BUF_SIZE
  {
    hide Stream, GenksymsTables.Genksyms, KeywordHash.Reserved;
    GenksymsTables.GenksymsWellFormed();
    var scanner := new FlexScanner.Scanner(GenksymsTables.Genksyms(), FlexScanner.YY_BUF_SIZE, source);
    var reserved := KeywordHash.Reserved();
    forall w | w in reserved ensures reserved[w] > 0 {
      ReservedExactly(Names(reserved, {}), w);
      KeywordHash.TokensInRange(w, reserved[w]);
    }
    lexer := new Lexer(reserved, scanner);
  }

  /** The codes of the tokens to come, and their parentheses. */
  lemma {:induction false} TokensAhead(lexer: Lexer)
    requires lexer.Open()
    ensures Parens(Visible(lexer.rest)) && forall t :: t in Visible(lexer.rest) ==> Coded(t)
  {
    hide Stream, FlexScanner.Scanner.Valid, FlexScanner.Scanner.Pending;
    lexer.ParensAhead();
    StreamCodes(lexer.scanner.atBol, lexer.scanner.Pending());
    Lexer.VisibleAmong(lexer.rest);
  }

  /** The tokens of a whole source, whatever types the parser knows at each call.  Each call keeps to the
      rule; the last one, at the end of the source, delivers 0.  The texts collected are those of the
      source, in order, but for one parenthesis for each typeof that dropped one.  The program fails only
      if some match had run 8191 characters or more when the buffer was refilled. */
  method LexAll(source: seq<Byte>, typedefs: nat -> set<string>)
    returns (ok: bool, tokens: seq<int>, lexer: Lexer, ghost calls: seq<Call>)
    ensures Calls(Visible(Stream(true, source)), typedefs, if ok then tokens + [0] else tokens, calls)
    ensures ok ==> Missing(Texts(Visible(Stream(true, source))), lexer.list, lexer.lost) && 0 !in tokens
    ensures !ok ==> lexer.RanAhead() && |lexer.scanner.kept| >= 8191
  {
    hide Stream, Visible, Texts, Missing, Rule, KeywordHash.Reserved, FlexScanner.Scanner.Valid,
        FlexScanner.Scanner.Ran;
    lexer := Start(source);
    ok, tokens, calls := true, [], [];
    while true
      invariant lexer.Valid() && !lexer.nul && fresh(lexer) && fresh(lexer.scanner) && fresh(lexer.scanner.chBuf)
      invariant lexer.scanner.size == FlexScanner.YY_BUF_SIZE && lexer.all == Stream(true, source)
      invariant lexer.reserved == KeywordHash.Reserved()
      invariant ok && 0 !in tokens
      invariant Calls(Visible(lexer.all), typedefs, tokens, calls) &&
          Left(Visible(lexer.all), calls) == Visible(lexer.rest)
      invariant Behind(tokens, lexer.lexstate, lexer.suppress, lexer.brace)
      decreases |Visible(lexer.rest)|, lexer.lexstate != Normal
    {
      ghost var v, state, before := Visible(lexer.rest), lexer.lexstate, lexer.list;
      ghost var suppress, brace := lexer.suppress, lexer.brace;
      var known := typedefs(|tokens|);
      ghost var names := Names(lexer.reserved, known);
      TokensAhead(lexer);
      var token;
      ok, token := lexer.Lex(known);
      if !ok {
        return;
      }
      ghost var c := Call(known, v, token, Visible(lexer.rest));
      CalledExactly(lexer, names, tokens, state, suppress, brace, before, c);
      OneMoreCall(Visible(lexer.all), typedefs, tokens, calls, c);
      calls := calls + [c];
      if token == 0 {
        NoTexts();
        assert lexer.list + Texts(Visible(lexer.rest)) == lexer.list;
        return;
      }
      lexer.CalledShrinks(names, state, suppress, brace, before, v, token);
      NextBehind(lexer, names, tokens, state, suppress, brace, before, v, token);
      tokens := tokens + [token];
    }
  }

  // ----- The failure -----

  /** The length of the name in the sample. */
  const NAME: nat := 8191

  /** The contents of the buffer in the sample: the name, and blanks up to the end. */
  function SampleByte(i: nat): Byte {
    if i < NAME then 97 else if i == NAME || i >= NAME + FlexScanner.READ_BUF_SIZE then 0 else 32
  }

  lemma NameFacts()
    ensures GenksymsTables.Ec(97) == 20
    ensures FlexTables.Lookup(GenksymsTables.Genksyms(), 1, 20, FlexTables.CHAIN) == Some(8)
    ensures FlexTables.Lookup(GenksymsTables.Genksyms(), 8, 20, FlexTables.CHAIN) == Some(25)
    ensures FlexTables.Lookup(GenksymsTables.Genksyms(), 25, 20, FlexTables.CHAIN) == Some(25)
  {
  }

  /** The match runs over any number of letters. */
  lemma {:induction false} NameRuns(name: seq<Byte>, k: nat)
    requires name != [] && k <= |name| && forall b :: b in name ==> b == 97
    ensures StateAt(false, name, k) == if k == 0 then 1 else if k == 1 then 8 else 25
  {
    hide GenksymsTables.Accept, GenksymsTables.Ec, GenksymsTables.Base, GenksymsTables.Def, GenksymsTables.Nxt,
      GenksymsTables.Chk, GenksymsTables.Meta, StateAt, FlexTables.Lookup;
    NameFacts();
    if k > 0 {
      NameRuns(name, k - 1);
      NextState(false, name, k);
      assert name[k - 1] in name;
      assert ClassAt(name, k - 1) == 20;
    } else {
      NextState(false, name, 1);
    }
  }

  lemma {:induction false} NameIsLive(name: seq<Byte>)
    requires |name| == NAME && forall b :: b in name ==> b == 97
    requires FlexTables.WellFormed(GenksymsTables.Genksyms())
    ensures FlexTables.Live(GenksymsTables.Genksyms(),
        FlexTables.RunTo(GenksymsTables.Genksyms(), FlexTables.Start(false), name, NAME))
  {
    hide FlexTables.WellFormed, FlexTables.RunTo;
    NameRuns(name, NAME);
  }

  /** The scanner of the program, behind a name of 8191 characters that a refill has kept before a
      full read. */
  method BehindName() returns (s: FlexScanner.Scanner, ghost name: seq<Byte>)
    ensures fresh(s) && fresh(s.chBuf) && s.Valid() && s.TextIs(name) && s.textPtr == 0
    ensures s.bufSize == s.size == FlexScanner.YY_BUF_SIZE && s.nChars == NAME + FlexScanner.READ_BUF_SIZE
  {
    hide GenksymsTables.Genksyms, FlexTables.WellFormed, FlexTables.Live, FlexTables.RunTo;
    GenksymsTables.GenksymsWellFormed();
    s := new FlexScanner.Scanner(GenksymsTables.Genksyms(), FlexScanner.YY_BUF_SIZE, []);
    s.chBuf := new Byte[FlexScanner.YY_BUF_SIZE + 2](i requires 0 <= i => SampleByte(i));
    s.nChars, s.textPtr, s.cBufP, s.hold, s.status := NAME + FlexScanner.READ_BUF_SIZE, 0, NAME, 32, FlexScanner.Normal;
    name := s.chBuf[0..NAME];
    s.kept, s.keptBol := name, false;
    assert forall i :: 0 <= i < NAME ==> name[i] == 97;
    NameIsLive(name);
    assert s.chBuf[s.nChars] == 0 && s.chBuf[s.nChars + 1] == 0;
  }

  /** There the name can be put back, but there is no room for a character before it. */
  method OverflowSample() returns (ok: bool)
    ensures !ok
  {
    hide FlexScanner.Scanner.Valid, FlexScanner.Scanner.Pending;
    ghost var name;
    var s;
    s, name := BehindName();
    s.Less(0, name);
    ok := s.Unput(40);
  }
}
