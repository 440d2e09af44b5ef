/** The proof that the tables of the genksyms parser agree with its grammar, and that every action
    of theirs lowers the rank. */
module GenksymsParser {
  import opened GenksymsGrammar
  import opened LrTables

  // ----- What holds of the arrays -----

  lemma RuleFacts()
    ensures forall n: nat :: n < 134 ==> R2(n) < 6 && Prhs(n) + R2(n) <= 361
    ensures forall n: nat :: ACCEPT < n < 134 ==> 54 < R1(n) < 103
    ensures R1(ACCEPT) == 54 && R2(ACCEPT) == 2 && RhsAt(ACCEPT, 0) == 55 && RhsAt(ACCEPT, 1) == 0
    ensures Kernel(4, ACCEPT, 2) && Defact(4) < 134
  {
  }

  lemma NoEndInRules()
    ensures forall n: nat, k: nat :: ACCEPT < n < 134 && k < R2(n) ==> RhsAt(n, k) > 0
  {
  }

  lemma ItemFacts()
    ensures forall s: nat, x: nat :: s < 188 && Starts(s, x) ==> 54 <= x < 103 && (x == 54 ==> s == 0)
    ensures forall n: nat, d: nat :: d > 0 ==> !Kernel(0, n, d)
    ensures forall s: nat, n: nat, d: nat :: s < 188 && d > 0 && Kernel(s, n, d) ==> n < 134 && d <= R2(n)
  {
  }

  lemma DefaultFacts()
    ensures forall s: nat :: s < 188 && s != 4 && Defact(s) != 0 ==>
      ACCEPT < Defact(s) < 134 && Has(s, Defact(s), R2(Defact(s)))
  {
  }

  // Facts about all states, in parts small enough to check case by case.

  // Before the dot of each item stands the symbol that leads to its state.

  lemma SymbolsFit0()
    ensures forall s: nat, n: nat, d: nat ::
      s < 40 && d > 0 && n < 134 && Prhs(n) + d <= 361 && Kernel(s, n, d) ==>
      Rhs(Prhs(n) + d - 1) == Stos(s)
  {
  }

  lemma SymbolsFit1()
    ensures forall s: nat, n: nat, d: nat ::
      40 <= s < 65 && d > 0 && n < 134 && Prhs(n) + d <= 361 && Kernel(s, n, d) ==>
      Rhs(Prhs(n) + d - 1) == Stos(s)
  {
  }

  lemma SymbolsFit2()
    ensures forall s: nat, n: nat, d: nat ::
      65 <= s < 125 && d > 0 && n < 134 && Prhs(n) + d <= 361 && Kernel(s, n, d) ==>
      Rhs(Prhs(n) + d - 1) == Stos(s)
  {
  }

  lemma SymbolsFit3()
    ensures forall s: nat, n: nat, d: nat ::
      125 <= s < 188 && d > 0 && n < 134 && Prhs(n) + d <= 361 && Kernel(s, n, d) ==>
      Rhs(Prhs(n) + d - 1) == Stos(s)
  {
  }

  // The items of a state come from every state it is entered from.

  lemma ItemsFollow0()
    ensures forall v: nat, s: nat, n: nat, d: nat ::
      v < 50 && s < 188 && From(v, s) && d > 0 && Kernel(v, n, d) ==>
      Has(s, n, d - 1)
  {
  }

  lemma ItemsFollow1()
    ensures forall v: nat, s: nat, n: nat, d: nat ::
      50 <= v < 75 && s < 188 && From(v, s) && d > 0 && Kernel(v, n, d) ==>
      Has(s, n, d - 1)
  {
  }

  lemma ItemsFollow2()
    ensures forall v: nat, s: nat, n: nat, d: nat ::
      75 <= v < 100 && s < 188 && From(v, s) && d > 0 && Kernel(v, n, d) ==>
      Has(s, n, d - 1)
  {
  }

  lemma ItemsFollow3()
    ensures forall v: nat, s: nat, n: nat, d: nat ::
      100 <= v < 150 && s < 188 && From(v, s) && d > 0 && Kernel(v, n, d) ==>
      Has(s, n, d - 1)
  {
  }

  lemma ItemsFollow4()
    ensures forall v: nat, s: nat, n: nat, d: nat ::
      150 <= v < 188 && s < 188 && From(v, s) && d > 0 && Kernel(v, n, d) ==>
      Has(s, n, d - 1)
  {
  }

  function GotoState(s: nat, x: nat): int
    requires 54 <= x < 103
  {
    var k := Pgoto(x - 54) + s;
    if 0 <= k <= 515 && Check(k) == s then Table(k) else Defgoto(x - 54)
  }

  /** State v is entered from state s over symbol x. */
  predicate Enters(s: nat, x: nat, v: int) {
    0 < v < 188 && Stos(v) == x && From(v, s)
  }

  // The goto over a symbol whose rules may start in a state enters a state for this symbol.

  lemma GotosFit0()
    ensures forall s: nat, x: nat ::
      s < 40 && 54 < x < 103 && Starts(s, x) ==>
      Enters(s, x, GotoState(s, x))
  {
  }

  lemma GotosFit1()
    ensures forall s: nat, x: nat ::
      40 <= s < 65 && 54 < x < 103 && Starts(s, x) ==>
      Enters(s, x, GotoState(s, x))
  {
  }

  lemma GotosFit2()
    ensures forall s: nat, x: nat ::
      65 <= s < 81 && 54 < x < 103 && Starts(s, x) ==>
      Enters(s, x, GotoState(s, x))
  {
  }

  lemma GotosFit3()
    ensures forall s: nat, x: nat ::
      81 <= s < 87 && 54 < x < 103 && Starts(s, x) ==>
      Enters(s, x, GotoState(s, x))
  {
  }

  lemma GotosFit4()
    ensures forall s: nat, x: nat ::
      87 <= s < 97 && 54 < x < 103 && Starts(s, x) ==>
      Enters(s, x, GotoState(s, x))
  {
  }

  lemma GotosFit5()
    ensures forall s: nat, x: nat ::
      97 <= s < 104 && 54 < x < 103 && Starts(s, x) ==>
      Enters(s, x, GotoState(s, x))
  {
  }

  lemma GotosFit6()
    ensures forall s: nat, x: nat ::
      104 <= s < 135 && 54 < x < 103 && Starts(s, x) ==>
      Enters(s, x, GotoState(s, x))
  {
  }

  lemma GotosFit7()
    ensures forall s: nat, x: nat ::
      135 <= s < 156 && 54 < x < 103 && Starts(s, x) ==>
      Enters(s, x, GotoState(s, x))
  {
  }

  lemma GotosFit8()
    ensures forall s: nat, x: nat ::
      156 <= s < 188 && 54 < x < 103 && Starts(s, x) ==>
      Enters(s, x, GotoState(s, x))
  {
  }

  /** Entry k of the table is used in state s, on token k - Pact(s). */
  predicate Entry(s: nat, k: nat)
    requires s < 188
  {
    Pact(s) != -92 && Pact(s) <= k < Pact(s) + 54 && k <= 515 && Check(k) == k - Pact(s)
  }

  // A shift enters a state for the token.

  lemma ShiftsFit0()
    ensures forall s: nat, k: nat ::
      s < 50 && Entry(s, k) && Table(k) > 0 ==>
      Enters(s, k - Pact(s), Table(k))
  {
  }

  lemma ShiftsFit1()
    ensures forall s: nat, k: nat ::
      50 <= s < 66 && Entry(s, k) && Table(k) > 0 ==>
      Enters(s, k - Pact(s), Table(k))
  {
  }

  lemma ShiftsFit2()
    ensures forall s: nat, k: nat ::
      66 <= s < 85 && Entry(s, k) && Table(k) > 0 ==>
      Enters(s, k - Pact(s), Table(k))
  {
  }

  lemma ShiftsFit3()
    ensures forall s: nat, k: nat ::
      85 <= s < 100 && Entry(s, k) && Table(k) > 0 ==>
      Enters(s, k - Pact(s), Table(k))
  {
  }

  lemma ShiftsFit4()
    ensures forall s: nat, k: nat ::
      100 <= s < 128 && Entry(s, k) && Table(k) > 0 ==>
      Enters(s, k - Pact(s), Table(k))
  {
  }

  lemma ShiftsFit5()
    ensures forall s: nat, k: nat ::
      128 <= s < 188 && Entry(s, k) && Table(k) > 0 ==>
      Enters(s, k - Pact(s), Table(k))
  {
  }

  /** A reduction in the table is of a rule that is complete. */
  lemma ReductionsFit()
    ensures forall s: nat, k: nat :: s < 188 && Entry(s, k) && Table(k) <= 0 ==>
      ACCEPT < -Table(k) < 134 && Has(s, -Table(k), R2(-Table(k)))
  {
  }

  // ----- The agreement -----

  lemma {:induction false} InItems(s: nat, i: Item)
    requires s < 188
    ensures i in ParserItems()[s] <==> Has(s, i.rule, i.dot)
    ensures i in ParserItems()[s] ==> i.rule < 134 && i.dot <= R2(i.rule)
  {
    hide Starts, Kernel, R1, R2, Prhs, Rhs;
    assert i in ItemsAt(s) <==> i.rule < 134 && i.dot < 6 && Has(s, i.rule, i.dot) by {
      assert i == Item(i.rule, i.dot);
    }
    ItemFacts();
    RuleFacts();
  }

  lemma {:induction false} EntersFollows(s: nat, x: nat, v: int)
    requires s < 188 && Enters(s, x, v)
    ensures Follows(ParserGrammar(), ParserItems(), s, x, v)
  {
    hide Starts, Kernel, R1, R2, Prhs, Rhs, Stos, From;
    forall i | i in ParserItems()[v] && i.dot > 0
      ensures i.rule < 134 && i.dot <= R2(i.rule) && RhsAt(i.rule, i.dot - 1) == x &&
              Item(i.rule, i.dot - 1) in ParserItems()[s]
    {
      InItems(v, i);
      InItems(s, Item(i.rule, i.dot - 1));
      RuleFacts();
      SymbolsFit0(); SymbolsFit1(); SymbolsFit2(); SymbolsFit3();
      ItemsFollow0(); ItemsFollow1(); ItemsFollow2(); ItemsFollow3(); ItemsFollow4();
    }
  }

  lemma {:induction false} ActionsJustified(s: nat, tok: nat)
    requires s < 188 && s != 4 && tok < 54
    ensures Justified(ParserTables(), ParserGrammar(), ParserItems(), s, DefaultAction(ParserTables(), s), 0)
    ensures Pact(s) != -92 ==>
      Justified(ParserTables(), ParserGrammar(), ParserItems(), s, ActionOn(ParserTables(), s, tok), tok)
  {
    hide Starts, Kernel, R1, R2, Prhs, Rhs, Stos, From, Pact, Defact, Check, Table, Follows, Enters;
    DefaultFacts();
    if Defact(s) != 0 {
      InItems(s, Item(Defact(s), R2(Defact(s))));
    }
    var k := Pact(s) + tok;
    if 0 <= k && Entry(s, k) {
      if Table(k) > 0 {
        ShiftsFit0(); ShiftsFit1(); ShiftsFit2(); ShiftsFit3(); ShiftsFit4(); ShiftsFit5();
        EntersFollows(s, tok, Table(k));
      } else {
        ReductionsFit();
        InItems(s, Item(-Table(k), R2(-Table(k))));
      }
    }
  }

  lemma {:induction false} GotosJustified(s: nat, n: nat)
    requires s < 188 && ACCEPT < n < 134 && Item(n, 0) in ParserItems()[s]
    requires Shape(ParserTables(), ParserGrammar())
    ensures Follows(ParserGrammar(), ParserItems(), s, R1(n), Goto(ParserTables(), s, R1(n)))
  {
    hide Starts, Kernel, R1, R2, Prhs, Rhs, Stos, From, Pact, Defact, Check, Table, Pgoto, Defgoto, Follows, Enters;
    InItems(s, Item(n, 0));
    RuleFacts();
    GotosFit0(); GotosFit1(); GotosFit2(); GotosFit3(); GotosFit4();
    GotosFit5(); GotosFit6(); GotosFit7(); GotosFit8();
    EntersFollows(s, R1(n), GotoState(s, R1(n)));
  }

  lemma {:induction false} ParserShape()
    ensures Shape(ParserTables(), ParserGrammar())
  {
    hide R1, R2, Prhs, Rhs, Pact, Defact, Check, Table, Pgoto, Defgoto;
    RuleFacts();
  }

  /** The shipped tables agree with the shipped grammar. */
  lemma {:induction false} ParserAgrees()
    ensures Agrees(ParserTables(), ParserGrammar(), ParserItems())
  {
    hide Starts, Kernel, R1, R2, Prhs, Rhs, Stos, From, Pact, Defact, Check, Table, Pgoto, Defgoto, Follows, Justified;
    var t, g, items := ParserTables(), ParserGrammar(), ParserItems();
    ParserShape();
    RuleFacts();
    NoEndInRules();
    ItemFacts();
    forall s: nat, i: Item | s < 188 && i in items[s] ensures i.rule < 134 && i.dot <= R2(i.rule) {
      InItems(s, i);
    }
    forall s: nat, tok: nat | s < 188 && s != 4 && tok < 54
      ensures !Decided(t, s) ==> Justified(t, g, items, s, ActionOn(t, s, tok), tok)
    {
      ActionsJustified(s, tok);
    }
    forall s: nat | s < 188 && s != 4 ensures Justified(t, g, items, s, DefaultAction(t, s), 0) {
      ActionsJustified(s, 0);
    }
    forall s: nat, n: nat | s < 188 && ACCEPT < n < 134 && Item(n, 0) in items[s]
      ensures Follows(g, items, s, g.lhs[n], Goto(t, s, g.lhs[n]))
    {
      GotosJustified(s, n);
    }
    forall i: Item | i in items[0] ensures i.dot == 0 {
      InItems(0, i);
    }
    forall s: nat | s < 188 && Item(ACCEPT, 0) in items[s] ensures s == 0 {
      InItems(s, Item(ACCEPT, 0));
    }
    InItems(4, Item(ACCEPT, 2));
  }

  // ----- The rank -----

  /** What the right-hand side of a rule weighs. */
  function RuleWeight(n: nat): int
    requires n < 134 && Prhs(n) + R2(n) <= 361
  {
    WeightBefore(Prhs(n) + R2(n)) - WeightBefore(Prhs(n))
  }

  lemma WeightsAdd0()
    ensures forall i: nat :: i < 180 && Rhs(i) >= 0 ==>
      Rhs(i) < 103 && WeightBefore(i + 1) == WeightBefore(i) + SymbolWeight(Rhs(i))
  {
  }

  lemma WeightsAdd1()
    ensures forall i: nat :: 180 <= i < 361 && Rhs(i) >= 0 ==>
      Rhs(i) < 103 && WeightBefore(i + 1) == WeightBefore(i) + SymbolWeight(Rhs(i))
  {
  }

  predicate SymbolThere(n: nat, k: nat)
    requires n < 134
  {
    Prhs(n) + k < 361 && Rhs(Prhs(n) + k) >= 0
  }

  lemma SymbolsExist()
    ensures forall n: nat, k: nat :: n < 134 && k < R2(n) ==> SymbolThere(n, k)
  {
  }

  lemma {:induction false} RuleWeightMeans(n: nat, k: nat)
    requires n < 134 && k <= R2(n)
    ensures |ParserGrammar().rhs[n]| == R2(n) && Prhs(n) + R2(n) <= 361
    ensures Weights(ParserRank(), ParserGrammar().rhs[n][..k]) == WeightBefore(Prhs(n) + k) - WeightBefore(Prhs(n))
  {
    hide R1, R2, Prhs, Rhs, SymbolWeight, StateHeight, WeightBefore;
    RuleFacts();
    var xs := ParserGrammar().rhs[n];
    assert xs[..0] == [];
    if k > 0 {
      RuleWeightMeans(n, k - 1);
      SymbolsExist();
      assert SymbolThere(n, k - 1);
      WeightsAdd0();
      WeightsAdd1();
      assert xs[..k] == xs[..k - 1] + [xs[k - 1]];
      WeightsConcat(ParserRank(), xs[..k - 1], [xs[k - 1]]);
      assert [xs[k - 1]][1..] == [];
    }
  }

  lemma RankFacts()
    ensures forall v: nat :: v < 188 ==> Stos(v) < 103 && StateHeight(v) <= Cap(Stos(v)) < 4
    ensures forall v: nat :: 0 < v < 188 && Stos(v) == 0 ==> v == 4
    ensures forall x: nat :: x < 54 ==> SymbolWeight(x) == 40
  {
  }

  /** Two rules rewrite one symbol that may be empty to another. */
  predicate MaybeEmpty(n: nat) {
    n == 85 || n == 93
  }

  /** A rule weighs more than its left-hand side, with the height of any state entered over it. */
  ghost predicate RuleLowers(n: nat)
    requires n < 134 && R1(n) < 103 && Prhs(n) + R2(n) <= 361
  {
    SymbolWeight(R1(n)) + Cap(R1(n)) < RuleWeight(n) + if MaybeEmpty(n) then 1 else 0
  }

  lemma RulesLower0()
    ensures forall n: nat :: ACCEPT < n < 50 && R2(n) > 0 ==> R1(n) < 103 && Prhs(n) + R2(n) <= 361 && RuleLowers(n)
  {
  }

  lemma RulesLower1()
    ensures forall n: nat :: 50 <= n < 95 && R2(n) > 0 ==> R1(n) < 103 && Prhs(n) + R2(n) <= 361 && RuleLowers(n)
  {
  }

  lemma RulesLower2()
    ensures forall n: nat :: 95 <= n < 134 && R2(n) > 0 ==> R1(n) < 103 && Prhs(n) + R2(n) <= 361 && RuleLowers(n)
  {
  }

  /** A reduction of nothing in state s goes down, and so does one of a symbol that may be empty. */
  predicate StateLowers(s: nat, n: nat)
    requires s < 188 && ACCEPT < n < 134 && 54 < R1(n) < 103
  {
    && (MaybeEmpty(n) ==> StateHeight(s) > 0)
    && (R2(n) == 0 ==>
          var v := GotoState(s, R1(n)); 0 < v < 188 && SymbolWeight(R1(n)) + StateHeight(v) < StateHeight(s))
  }

  lemma DefaultsLower()
    ensures forall s: nat :: s < 188 && s != 4 && Defact(s) != 0 ==>
      ACCEPT < Defact(s) < 134 && 54 < R1(Defact(s)) < 103 && StateLowers(s, Defact(s))
  {
  }

  lemma EntriesLower0()
    ensures forall s: nat, k: nat :: s < 60 && Entry(s, k) && Table(k) <= 0 ==>
      ACCEPT < -Table(k) < 134 && 54 < R1(-Table(k)) < 103 && StateLowers(s, -Table(k))
  {
  }

  lemma EntriesLower1()
    ensures forall s: nat, k: nat :: 60 <= s < 100 && Entry(s, k) && Table(k) <= 0 ==>
      ACCEPT < -Table(k) < 134 && 54 < R1(-Table(k)) < 103 && StateLowers(s, -Table(k))
  {
  }

  lemma EntriesLower2()
    ensures forall s: nat, k: nat :: 100 <= s < 188 && Entry(s, k) && Table(k) <= 0 ==>
      ACCEPT < -Table(k) < 134 && 54 < R1(-Table(k)) < 103 && StateLowers(s, -Table(k))
  {
  }

  /** Every reduction that a state is good for goes down. */
  lemma {:induction false} ReductionGoesDown(s: nat, n: nat, tok: nat)
    requires s < 188 && ACCEPT < n < 134 && 54 < R1(n) < 103 && StateLowers(s, n)
    ensures Shape(ParserTables(), ParserGrammar())
    ensures GoesDown(ParserTables(), ParserGrammar(), ParserItems(), ParserRank(), s, Reduce(n), tok)
  {
    hide Starts, Kernel, R1, R2, Prhs, Rhs, Stos, From, Pact, Defact, Check, Table, Pgoto, Defgoto,
      SymbolWeight, StateHeight, Cap, WeightBefore, Weights, Shape;
    var t, g, items, r := ParserTables(), ParserGrammar(), ParserItems(), ParserRank();
    ParserShape();
    RuleWeightMeans(n, R2(n));
    assert g.rhs[n][..R2(n)] == g.rhs[n];
    RankFacts();
    if R2(n) > 0 {
      RulesLower0();
      RulesLower1();
      RulesLower2();
    }
    forall u: nat | u < 188 && Item(n, 0) in items[u] && (g.rhs[n] == [] ==> u == s)
      ensures Weight(r, R1(n)) + Height(r, Goto(t, u, R1(n))) < Weights(r, g.rhs[n]) + Height(r, s)
    {
      InItems(u, Item(n, 0));
      GotosFit0(); GotosFit1(); GotosFit2(); GotosFit3(); GotosFit4();
      GotosFit5(); GotosFit6(); GotosFit7(); GotosFit8();
      assert Goto(t, u, R1(n)) == GotoState(u, R1(n));
    }
  }

  lemma {:induction false} ActionGoesDown(s: nat, tok: nat)
    requires s < 188 && s != 4 && tok < 54
    ensures Shape(ParserTables(), ParserGrammar())
    ensures GoesDown(ParserTables(), ParserGrammar(), ParserItems(), ParserRank(), s,
        DefaultAction(ParserTables(), s), 0)
    ensures Pact(s) != -92 ==>
      GoesDown(ParserTables(), ParserGrammar(), ParserItems(), ParserRank(), s, ActionOn(ParserTables(), s, tok), tok)
  {
    hide Starts, Kernel, R1, R2, Prhs, Rhs, Stos, From, Pact, Defact, Check, Table, Pgoto, Defgoto,
      SymbolWeight, StateHeight, Cap, Weights, Shape, ParserGrammar, ParserItems, StateLowers;
    ParserShape();
    DefaultsLower();
    if Defact(s) != 0 {
      ReductionGoesDown(s, Defact(s), 0);
      ReductionGoesDown(s, Defact(s), tok);
    }
    var k := Pact(s) + tok;
    if 0 <= k && Entry(s, k) {
      if Table(k) > 0 {
        ShiftsFit0(); ShiftsFit1(); ShiftsFit2(); ShiftsFit3(); ShiftsFit4(); ShiftsFit5();
        RankFacts();
      } else {
        EntriesLower0(); EntriesLower1(); EntriesLower2();
        ReductionGoesDown(s, -Table(k), tok);
      }
    }
  }

  /** Every action of the shipped tables goes down, so that the parser stops on every input. */
  lemma {:induction false} ParserDescends()
    ensures Descends(ParserTables(), ParserGrammar(), ParserItems(), ParserRank())
  {
    hide Starts, Kernel, R1, R2, Prhs, Rhs, Pact, Defact, Check, Table, Shape, GoesDown;
    ParserShape();
    forall s: nat | s < 188 && s != 4
      ensures GoesDown(ParserTables(), ParserGrammar(), ParserItems(), ParserRank(), s,
          DefaultAction(ParserTables(), s), 0)
    {
      ActionGoesDown(s, 0);
    }
    forall s: nat, tok: nat | s < 188 && s != 4 && tok < 54 && !Decided(ParserTables(), s)
      ensures GoesDown(ParserTables(), ParserGrammar(), ParserItems(), ParserRank(), s,
          ActionOn(ParserTables(), s, tok), tok)
    {
      ActionGoesDown(s, tok);
    }
  }
}
