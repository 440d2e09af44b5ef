/** The proof that the tables of the genksyms parser follow every derivation of its grammar but for the
    choices they settle, and the parser run on them. */
module GenksymsFollow {
  import opened GenksymsChoices
  import opened GenksymsGrammar
  import opened GenksymsParser
  import opened LrComplete
  import opened LrRuns
  import opened LrTables
  import opened Wrappers
  import LrParser

  // ----- The instance -----

  function ParserChoices(): Choices {
    Choices(
      seq(103, x requires 0 <= x < 103 => (set a: nat | a < 54 && FirstOf(x, a))),
      seq(103, x requires 0 <= x < 103 => (set a: nat | a < 54 && FollowOf(x, a))),
      (set x: nat | x < 103 && Nullable(x)),
      CLASHES)
  }

  lemma {:induction false} ChoicesSized()
    ensures Sized(ParserTables(), ParserGrammar(), ParserChoices())
  {
    hide R1, R2, Prhs, Rhs, FollowOf, Nullable, Pact, Defact, Check, Table, Pgoto, Defgoto, Symbol;
    RuleFacts();
    SymbolsAgree();
    SymbolsInRange();
  }

  // What follows what in the rules, as the sets say it.

  lemma {:induction false} FirstsKept(n: nat, j: nat)
    requires ACCEPT < n < 134 && j < R2(n) && Empties(ParserGrammar(), ParserChoices(), n, 0, j)
    ensures RhsAt(n, j) < 103 && R1(n) < 103
    ensures ParserChoices().first[RhsAt(n, j)] <= ParserChoices().first[R1(n)]
  {
    hide R1, R2, Prhs, Rhs, FirstOf, FollowOf, Nullable, Pact, Defact, Check, Table, Pgoto, Defgoto, Symbol, RhsAt,
      Sized, Run;
    SymbolsAgree();
    SymbolsInRange();
    EmptiesRun(n, 0, j);
    FirstsFit0(); FirstsFit1(); FirstsFit2(); FirstsFit3();
  }

  lemma {:induction false} NothingKept(n: nat)
    requires ACCEPT < n < 134 && Empties(ParserGrammar(), ParserChoices(), n, 0, R2(n))
    ensures R1(n) in ParserChoices().nullable
  {
    hide R1, R2, Prhs, Rhs, FirstOf, FollowOf, Nullable, Pact, Defact, Check, Table, Pgoto, Defgoto, Symbol, RhsAt,
      Sized, Run;
    SymbolsInRange();
    EmptiesRun(n, 0, R2(n));
    NothingFits0(); NothingFits1(); NothingFits2();
  }

  lemma {:induction false} NeighboursKept(n: nat, i: nat, j: nat)
    requires n < 134 && i < j < R2(n) && Empties(ParserGrammar(), ParserChoices(), n, i + 1, j)
    ensures RhsAt(n, i) < 103 && RhsAt(n, j) < 103
    ensures ParserChoices().first[RhsAt(n, j)] <= ParserChoices().follow[RhsAt(n, i)]
  {
    hide R1, R2, Prhs, Rhs, FirstOf, FollowOf, Nullable, Pact, Defact, Check, Table, Pgoto, Defgoto, Symbol, RhsAt,
      Sized, Run;
    SymbolsAgree();
    SymbolsInRange();
    EmptiesRun(n, i + 1, j);
    NeighboursFit0(); NeighboursFit1(); NeighboursFit2(); NeighboursFit3(); NeighboursFit4(); NeighboursFit5();
    NeighboursFit6(); NeighboursFit7(); NeighboursFit8();
  }

  lemma {:induction false} LastsKept(n: nat, i: nat)
    requires ACCEPT < n < 134 && i < R2(n) && Empties(ParserGrammar(), ParserChoices(), n, i + 1, R2(n))
    ensures RhsAt(n, i) < 103 && R1(n) < 103
    ensures ParserChoices().follow[R1(n)] <= ParserChoices().follow[RhsAt(n, i)]
  {
    hide R1, R2, Prhs, Rhs, FirstOf, FollowOf, Nullable, Pact, Defact, Check, Table, Pgoto, Defgoto, Symbol, RhsAt,
      Sized, Run;
    SymbolsAgree();
    SymbolsInRange();
    EmptiesRun(n, i + 1, R2(n));
    LastsFit0(); LastsFit1(); LastsFit2(); LastsFit3(); LastsFit4(); LastsFit5(); LastsFit6(); LastsFit7();
    LastsFit8();
  }

  lemma {:induction false} ChoicesNeighbours()
    requires Sized(ParserTables(), ParserGrammar(), ParserChoices())
    ensures Neighbours(ParserGrammar(), ParserChoices())
  {
    hide R1, R2, Prhs, Rhs, FirstOf, FollowOf, Nullable, Pact, Defact, Check, Table, Pgoto, Defgoto, Symbol, RhsAt,
      Sized, Empties;
    var g, l := ParserGrammar(), ParserChoices();
    RuleFacts();
    SymbolsAgree();
    SymbolsInRange();
    forall n: nat, j: nat | ACCEPT < n < 134 && j < R2(n) && Empties(g, l, n, 0, j)
      ensures l.first[g.rhs[n][j]] <= l.first[g.lhs[n]]
    {
      FirstsKept(n, j);
    }
    forall n: nat | ACCEPT < n < 134 && Empties(g, l, n, 0, R2(n)) ensures g.lhs[n] in l.nullable {
      NothingKept(n);
    }
    forall n: nat, i: nat, j: nat | n < 134 && i < j < R2(n) && Empties(g, l, n, i + 1, j)
      ensures l.first[g.rhs[n][j]] <= l.follow[g.rhs[n][i]]
    {
      NeighboursKept(n, i, j);
    }
    forall n: nat, i: nat | ACCEPT < n < 134 && i < R2(n) && Empties(g, l, n, i + 1, R2(n))
      ensures l.follow[g.lhs[n]] <= l.follow[g.rhs[n][i]]
    {
      LastsKept(n, i);
    }
  }

  lemma {:induction false} EmptiesRun(n: nat, i: nat, j: nat)
    requires n < 134 && j <= R2(n) && Empties(ParserGrammar(), ParserChoices(), n, i, j)
    ensures Run(n, i, j)
  {
    hide R1, R2, Prhs, Rhs, FirstOf, FollowOf, Nullable, Symbol, RhsAt;
    SymbolsAgree();
    forall m: nat | i <= m < j ensures Empty(n, m) {
      assert ParserGrammar().rhs[n][m] == Symbol(n, m);
      assert ParserGrammar().rhs[n][m] in ParserChoices().nullable;
    }
  }

  /** Every symbol expected is moved over. */
  lemma {:induction false} ItemMoves(s: nat, i: Item)
    requires s < 188 && i in ParserItems()[s] && i.rule < 134 && i.dot < R2(i.rule)
    requires Shape(ParserTables(), ParserGrammar())
    ensures RhsAt(i.rule, i.dot) < 103 && Moves(ParserTables(), ParserGrammar(), ParserItems(), s, i)
  {
    hide Starts, Kernel, R1, R2, Prhs, Rhs, Stos, From, Pact, Defact, Check, Table, Pgoto, Defgoto, RhsAt, Symbol,
        Shifts;
    var n, d := i.rule, i.dot;
    var x := Symbol(n, d);
    InItems(s, i);
    SymbolsAgree();
    if d == 0 {
      StartsExpect0(); StartsExpect1(); StartsExpect2(); StartsExpect3(); StartsExpect4();
    } else {
      KernelsExpect0(); KernelsExpect1(); KernelsExpect2(); KernelsExpect3(); KernelsExpect4();
    }
    assert Expected(s, x);
    if x < 54 {
      ShiftsExist0(); ShiftsExist1(); ShiftsExist2(); ShiftsExist3(); ShiftsExist4(); ShiftsExist5();
      ShiftsExist6(); ShiftsExist7();
      var k := Pact(s) + x;
      ShiftsFit0(); ShiftsFit1(); ShiftsFit2(); ShiftsFit3(); ShiftsFit4(); ShiftsFit5();
      ItemForward(s, n, d, Table(k));
    } else {
      GotosFit0(); GotosFit1(); GotosFit2(); GotosFit3(); GotosFit4();
      GotosFit5(); GotosFit6(); GotosFit7(); GotosFit8();
      ItemForward(s, n, d, GotoState(s, x));
      forall p: nat | ACCEPT < p < 134 && R1(p) == x ensures Item(p, 0) in ParserItems()[s] {
        InItems(s, Item(p, 0));
      }
    }
  }

  /** The state that is entered has the item moved. */
  lemma {:induction false} ItemForward(s: nat, n: nat, d: nat, v: int)
    requires s < 188 && n < 134 && d < R2(n) && Has(s, n, d) && Enters(s, Symbol(n, d), v)
    ensures Item(n, d + 1) in ParserItems()[v]
  {
    hide Starts, Kernel, R1, R2, Prhs, Rhs, Stos, From, RhsAt, Symbol;
    if d == 0 {
      StartsForward0(); StartsForward1(); StartsForward2(); StartsForward3(); StartsForward4();
      StartsForward5(); StartsForward6(); StartsForward7(); StartsForward8();
    } else {
      KernelsForward0(); KernelsForward1(); KernelsForward2(); KernelsForward3(); KernelsForward4();
      KernelsForward5(); KernelsForward6(); KernelsForward7(); KernelsForward8(); KernelsForward9();
      KernelsForward10(); KernelsForward11(); KernelsForward12(); KernelsForward13(); KernelsForward14();
      KernelsForward15(); KernelsForward16(); KernelsForward17(); KernelsForward18(); KernelsForward19();
    }
    InItems(v, Item(n, d + 1));
  }

  lemma ReducesMeans(s: nat, n: nat, a: nat)
    requires s < 188 && a < 54 && n > 0
    ensures ReducesOn(s, n, a) <==> Act(ParserTables(), s, a) == Reduce(n)
  {
    hide Pact, Defact, Check, Table;
  }

  /** The accepting rule starts in state 0 and is complete in the final state only. */
  lemma AcceptFacts()
    ensures Starts(0, 54)
    ensures forall s: nat :: s < 188 && Kernel(s, ACCEPT, 2) ==> s == 4
    ensures forall n: nat, d: nat :: Has(4, n, d) ==> n == ACCEPT
  {
  }

  /** Every complete item is reduced, but for the clashes. */
  lemma {:induction false} ItemReduces(s: nat, n: nat)
    requires s < 188 && ACCEPT < n < 134 && R1(n) < 103 && Item(n, R2(n)) in ParserItems()[s]
    requires Shape(ParserTables(), ParserGrammar())
    ensures Reduces(ParserTables(), ParserGrammar(), ParserItems(), ParserChoices(), s, n)
  {
    hide Starts, Kernel, R1, R2, Prhs, Rhs, Pact, Defact, Check, Table, Pgoto, Defgoto, FirstOf, FollowOf, Nullable;
    InItems(s, Item(n, R2(n)));
    AcceptFacts();
    if R2(n) == 0 {
      StartsReduce0(); StartsReduce1(); StartsReduce2(); StartsReduce3(); StartsReduce4(); StartsReduce5();
      StartsReduce6(); StartsReduce7();
    } else {
      KernelsReduce0(); KernelsReduce1(); KernelsReduce2(); KernelsReduce3(); KernelsReduce4();
      KernelsReduce5(); KernelsReduce6(); KernelsReduce7(); KernelsReduce8(); KernelsReduce9();
      KernelsReduce10(); KernelsReduce11(); KernelsReduce12(); KernelsReduce13(); KernelsReduce14();
      KernelsReduce15(); KernelsReduce16(); KernelsReduce17(); KernelsReduce18(); KernelsReduce19();
      KernelsReduce20();
    }
    forall a: nat | a < 54 && FollowOf(R1(n), a)
      ensures s != 4 && (Act(ParserTables(), s, a) == Reduce(n) || Clash(s, n, a) in CLASHES)
    {
      assert Settled(s, n, a);
      ReducesMeans(s, n, a);
    }
  }

  /** The tables follow every derivation of the grammar in which no choice of theirs is met. */
  lemma {:induction false} ParserComplete()
    ensures Complete(ParserTables(), ParserGrammar(), ParserItems(), ParserChoices())
  {
    hide Starts, Kernel, R1, R2, Prhs, Rhs, RhsAt, Stos, From, Pact, Defact, Check, Table, Pgoto, Defgoto,
      FirstOf, FollowOf, Nullable, Neighbours, Moves, Reduces, Act, ReducesOn, Symbol;
    var t, g, items, l := ParserTables(), ParserGrammar(), ParserItems(), ParserChoices();
    ParserShape();
    RuleFacts();
    AcceptFacts();
    ChoicesSized();
    ChoicesNeighbours();
    InItems(0, Item(ACCEPT, 0));
    forall s: nat, i: Item | s < 188 && i in items[s] ensures i.rule < 134 && i.dot <= R2(i.rule) {
      InItems(s, i);
    }
    forall s: nat | s < 188 && Item(ACCEPT, 2) in items[s] ensures s == 4 {
      InItems(s, Item(ACCEPT, 2));
    }
    forall s: nat, i: Item | s < 188 && i in items[s] && i.dot < |g.rhs[i.rule]| ensures Moves(t, g, items, s, i) {
      ItemMoves(s, i);
    }
    forall s: nat, n: nat | s < 188 && ACCEPT < n < 134 && Item(n, |g.rhs[n]|) in items[s]
      ensures Reduces(t, g, items, l, s, n)
    {
      ItemReduces(s, n);
    }
    forall c | c in l.clashes && c.state < 188 ensures Act(t, c.state, c.token) != Reduce(c.rule) {
      ClashesClash();
      ReducesMeans(c.state, c.rule, c.token);
    }
  }

  // ----- The parser on its own tables -----

  const INIT_DEPTH: nat := 200
  const MAX_DEPTH: nat := 10000

  /** The symbol that stands for a whole file. */
  const DECLARATION_SEQ: nat := 55

  /** The tree derives the tokens of a file by the rules of the grammar. */
  ghost predicate Derives(x: Tree, input: seq<nat>) {
    Parses(ParserTables(), ParserGrammar(), x) && Root(ParserGrammar(), x) == DECLARATION_SEQ && Yield(x) == input
  }

  /** No step of this derivation is one of the reductions that the tables have settled against. */
  ghost predicate Chosen(x: Tree) {
    ParserShape();
    Plain(ParserTables(), ParserGrammar(), ParserChoices(), 0, x, 0)
  }

  /** The run on these tokens puts MAX_DEPTH states on the stack. */
  ghost predicate TooDeep(input: seq<nat>) {
    ParserShape();
    exists k: nat, c: Config :: Steps(ParserTables(), ParserGrammar(), Start(input), k) == Some(c) &&
        10000 <= |c.states|
  }

  lemma {:induction false} ChosenExactly(x: Tree, input: seq<nat>)
    requires Derives(x, input)
    ensures Shape(ParserTables(), ParserGrammar())
    ensures Chosen(x) <==> CleanSentence(ParserTables(), ParserGrammar(), x)
  {
    hide Parses, Plain, CleanSentence, Complete;
    ParserShape();
    ParserComplete();
    RuleFacts();
    FollowedExactly(ParserTables(), ParserGrammar(), ParserItems(), ParserChoices(), x);
  }

  /** A file has at most one such derivation. */
  lemma {:induction false} ChosenUnique(x: Tree, y: Tree, input: seq<nat>)
    requires Derives(x, input) && Derives(y, input) && Chosen(x) && Chosen(y)
    ensures x == y
  {
    hide Parses, Plain, CleanSentence, Chosen;
    ChosenExactly(x, input);
    ChosenExactly(y, input);
    CleanUnique(ParserTables(), ParserGrammar(), x, y);
  }

  /** Parses a file; ends on every input.  The parser accepts with the derivation that meets none of the
      choices of its tables, it reports an error if there is none, and it gives up exactly on the files
      whose run needs more stack than it may have. */
  method ParseFile(input: seq<nat>) returns (status: LrParser.Status, tree: Tree)
    requires forall i :: 0 <= i < |input| ==> 0 < input[i] < 54
    ensures status == LrParser.Accepted ==> Derives(tree, input) && Chosen(tree)
    ensures status == LrParser.SyntaxError ==> forall x :: Derives(x, input) ==> !Chosen(x)
    ensures status == LrParser.Exhausted <==> TooDeep(input)
    ensures status != LrParser.Running
  {
    hide Starts, Kernel, R1, R2, Prhs, Rhs, Stos, From, Pact, Defact, Check, Table, Pgoto, Defgoto,
      SymbolWeight, StateHeight, Agrees, Descends, Parses, Chosen, CleanSentence, Steps;
    ParserAgrees();
    ParserDescends();
    RuleFacts();
    var p := new LrParser.Parser(ParserTables(), ParserGrammar(), ParserItems(), ParserRank(), input, INIT_DEPTH,
        MAX_DEPTH);
    p.Parse();
    status := p.status;
    tree := if status == LrParser.Accepted then p.vs[1] else Leaf(0);
    forall x | Derives(x, input) ensures Chosen(x) <==> CleanSentence(p.t, p.g, x) {
      ChosenExactly(x, input);
    }
  }
}
