/** What each symbol of the genksyms grammar can start with and be followed by, the choices its tables
    settle, and what holds of them, symbol by symbol and state by state. */
module GenksymsChoices {
  import opened GenksymsGrammar
  import opened GenksymsParser
  import opened LrComplete
  import opened LrTables

  /** The symbol can stand for nothing. */
  predicate Nullable(x: nat)
    requires x < 103
  {
    if x < 57 then false else (if x < 79 then (if x < 66 then (if x < 61 then (if x < 59 then (if x < 58 then
    true else false) else true) else (if x < 63 then (if x < 62 then false else true) else (if x < 65 then
    false else true))) else (if x < 72 then false else (if x < 73 then true else false))) else (if x < 90 then
    (if x < 83 then (if x < 81 then true else false) else (if x < 86 then (if x < 85 then true else false) else
    (if x < 87 then true else (if x < 89 then false else true)))) else (if x < 96 then (if x < 93 then (if x <
    92 then false else true) else false) else (if x < 97 then true else (if x < 101 then false else (if x < 102
    then true else false))))))
  }

  /** What the symbol stands for can start with token a. */
  predicate FirstOf(x: nat, a: nat)
    requires x < 103
  {
    if x < 54 then (a == x) else (if x < 78 then (if x < 65 then (if x < 59 then (if x < 57 then (a == 1 || 5
    <= a <= 32 || a == 38 || a == 42 || a == 45 || a == 48 || a == 50) else (if x < 58 then false else (a == 1
    || 5 <= a <= 32 || a == 38 || a == 42 || a == 45 || a == 48 || a == 50))) else (if x < 62 then (if x < 61
    then false else (5 <= a <= 11 || 13 <= a <= 22 || 24 <= a <= 28 || 31 <= a <= 32 || a == 38 || a == 42 || a
    == 45 || a == 48 || a == 50)) else (a == 38 || a == 42 || a == 48 || a == 50))) else (if x < 71 then (if x
    < 68 then (5 <= a <= 11 || 13 <= a <= 22 || 24 <= a <= 28 || 31 <= a <= 32 || a == 42) else (if x < 69 then
    (a == 5 || a == 11 || a == 14 || a == 17 || a == 21) else (if x < 70 then (6 <= a <= 10 || a == 13 || 15 <=
    a <= 16 || 18 <= a <= 20 || a == 22 || 24 <= a <= 28 || 31 <= a <= 32 || a == 42) else (6 <= a <= 7 || a ==
    9 || a == 13 || 15 <= a <= 16 || 19 <= a <= 20 || 25 <= a <= 26 || a == 42)))) else (if x < 75 then (if x <
    72 then (a == 50) else (a == 8 || a == 18 || a == 27 || a == 31)) else (if x < 76 then (a == 38 || a == 42
    || a == 48 || a == 50) else (if x < 77 then (a == 38 || a == 42 || a == 48) else (a == 38 || a == 42 || a
    == 48 || a == 50)))))) else (if x < 89 then (if x < 83 then (if x < 80 then (if x < 79 then (a == 38 || a
    == 42 || a == 48) else (5 <= a <= 11 || 13 <= a <= 22 || 24 <= a <= 28 || 31 <= a <= 32 || a == 37 || a ==
    42)) else (5 <= a <= 11 || 13 <= a <= 22 || 24 <= a <= 28 || 31 <= a <= 32 || a == 42)) else (if x < 86
    then (if x < 84 then (a == 34 || a == 38 || a == 42 || a == 48 || a == 50) else (if x < 85 then (a == 34 ||
    a == 38 || a == 42 || a == 48) else (5 <= a <= 11 || 13 <= a <= 22 || 24 <= a <= 28 || 31 <= a <= 32 || a
    == 38 || a == 42 || a == 48 || a == 50))) else (if x < 88 then (a == 51) else (a == 52)))) else (if x < 96
    then (if x < 92 then (a == 1 || 5 <= a <= 11 || 13 <= a <= 22 || 24 <= a <= 28 || 31 <= a <= 32 || a == 38
    || a == 42 || a == 45 || a == 48 || a == 50 || a == 53) else (if x < 95 then (a == 38 || a == 42 || a == 48
    || a == 50 || a == 53) else (a == 53))) else (if x < 98 then (if x < 97 then (a == 31) else (a == 52)) else
    (if x < 100 then (a == 38) else (if x < 102 then (a == 30) else (a == 29)))))))
  }

  /** Token a can follow the symbol, if it is a nonterminal. */
  predicate FollowOf(x: nat, a: nat)
    requires x < 103
  {
    if x < 54 then true else (if x < 78 then (if x < 66 then (if x < 59 then (if x < 55 then false else (if x <
    57 then (0 <= a <= 1 || 5 <= a <= 32 || a == 38 || a == 42 || a == 45 || a == 48 || a == 50) else (if x <
    58 then (a == 1 || 5 <= a <= 32 || a == 38 || a == 42 || a == 45 || a == 48 || a == 50) else (0 <= a <= 1
    || 5 <= a <= 32 || a == 38 || a == 42 || a == 45 || a == 48 || a == 50)))) else (if x < 62 then (if x < 61
    then (5 <= a <= 11 || 13 <= a <= 22 || 24 <= a <= 28 || 31 <= a <= 32 || a == 38 || a == 42 || a == 45 || a
    == 48 || a == 50) else (0 <= a <= 1 || 5 <= a <= 32 || a == 38 || a == 42 || a == 45 || a == 48 || a ==
    50)) else (if x < 63 then (a == 45) else (if x < 65 then (a == 45 || a == 47) else (a == 38 || a == 42 || a
    == 45 || a == 48 || a == 50 || a == 53))))) else (if x < 71 then (5 <= a <= 11 || 13 <= a <= 22 || 24 <= a
    <= 28 || 31 <= a <= 32 || a == 34 || 37 <= a <= 38 || a == 42 || a == 45 || 47 <= a <= 50 || a == 53) else
    (if x < 74 then (if x < 73 then (a == 34 || 37 <= a <= 38 || a == 42 || 47 <= a <= 50) else (a == 8 || a ==
    18 || a == 27 || a == 31 || a == 34 || 37 <= a <= 38 || a == 42 || 47 <= a <= 50)) else (if x < 76 then (if
    x < 75 then (5 <= a <= 11 || 13 <= a <= 22 || 24 <= a <= 28 || 31 <= a <= 32 || a == 34 || 37 <= a <= 38 ||
    a == 42 || a == 45 || 47 <= a <= 50 || a == 53) else (30 <= a <= 31 || a == 33 || a == 45 || a == 47 || a
    == 49 || a == 51)) else (if x < 77 then (30 <= a <= 31 || 33 <= a <= 34 || a == 45 || 47 <= a <= 49 || a ==
    51) else (a == 31 || a == 45 || a == 47 || a == 49)))))) else (if x < 90 then (if x < 84 then (if x < 81
    then (if x < 79 then (a == 31 || a == 34 || a == 45 || 47 <= a <= 49) else (if x < 80 then (a == 49) else
    (a == 37 || a == 49))) else (a == 37 || a == 47 || a == 49)) else (if x < 86 then (if x < 85 then (a == 34
    || a == 37 || 47 <= a <= 49) else (0 <= a <= 1 || 5 <= a <= 32 || a == 38 || a == 42 || a == 45 || a == 48
    || a == 50)) else (if x < 88 then (a == 45 || a == 47) else (if x < 89 then (5 <= a <= 11 || 13 <= a <= 22
    || 24 <= a <= 28 || 31 <= a <= 32 || a == 34 || 37 <= a <= 38 || a == 42 || a == 45 || 47 <= a <= 50 || a
    == 53) else (a == 46))))) else (if x < 96 then (if x < 93 then (if x < 92 then (a == 1 || 5 <= a <= 11 ||
    13 <= a <= 22 || 24 <= a <= 28 || 31 <= a <= 32 || a == 38 || a == 42 || 45 <= a <= 46 || a == 48 || a ==
    50 || a == 53) else (a == 45)) else (a == 45 || a == 47)) else (if x < 98 then (if x < 97 then (a == 31 ||
    a == 45 || a == 47 || a == 51) else (5 <= a <= 11 || 13 <= a <= 22 || 24 <= a <= 28 || 31 <= a <= 32 || a
    == 34 || 37 <= a <= 38 || a == 42 || a == 45 || 47 <= a <= 50 || a == 53)) else (if x < 100 then (46 <= a
    <= 47) else (if x < 101 then (0 <= a <= 1 || 5 <= a <= 32 || a == 38 || a == 42 || a == 45 || a == 48 || a
    == 50) else (if x < 102 then (a == 31 || a == 45 || a == 47 || a == 51) else (0 <= a <= 1 || 5 <= a <= 32
    || a == 38 || a == 42 || a == 45 || a == 48 || a == 50))))))))
  }

  /** The symbol at position d of rule n. */
  function Symbol(n: nat, d: nat): nat
    requires n < 134
  {
    if n < 67 then (if n < 33 then (if n < 16 then (if n < 8 then (if n < 4 then (if n < 2 then (if n < 1 then
    0 else (if d < 1 then 55 else 0)) else (if n < 3 then 56 else (if d < 1 then 55 else 56))) else (if n < 6
    then (if n < 5 then 0 else (if d < 1 then 57 else 58)) else (if n < 7 then 0 else (if d < 1 then 12 else
    (if d < 2 then 23 else (if d < 3 then 59 else 61)))))) else (if n < 12 then (if n < 10 then (if n < 9 then
    0 else (if d < 1 then 23 else (if d < 2 then 60 else 61))) else (if n < 11 then 61 else 85)) else (if n <
    14 then (if n < 13 then 100 else 102) else (if n < 15 then (if d < 1 then 1 else 45) else (if d < 1 then 1
    else 46))))) else (if n < 24 then (if n < 20 then (if n < 18 then (if n < 17 then (if d < 1 then 65 else
    (if d < 2 then 62 else 45)) else 0) else (if n < 19 then 63 else 64)) else (if n < 22 then (if n < 21 then
    (if d < 1 then 63 else (if d < 2 then 47 else 64)) else (if d < 1 then 75 else (if d < 2 then 101 else (if
    d < 3 then 96 else 86)))) else (if n < 23 then 0 else 66))) else (if n < 28 then (if n < 26 then (if n < 25
    then 67 else (if d < 1 then 66 else 67)) else (if n < 27 then 68 else 69)) else (if n < 30 then (if n < 29
    then 5 else 17) else (if n < 31 then 21 else (if n < 32 then 11 else 14)))))) else (if n < 50 then (if n <
    41 then (if n < 37 then (if n < 35 then (if n < 34 then 70 else 74) else (if n < 36 then (if d < 1 then 28
    else (if d < 2 then 48 else (if d < 3 then 82 else 49))) else 32)) else (if n < 39 then (if n < 38 then (if
    d < 1 then 22 else 38) else (if d < 1 then 24 else 38)) else (if n < 40 then (if d < 1 then 10 else 38)
    else (if d < 1 then 22 else (if d < 2 then 38 else 88))))) else (if n < 45 then (if n < 43 then (if n < 42
    then (if d < 1 then 24 else (if d < 2 then 38 else 88)) else (if d < 1 then 10 else (if d < 2 then 38 else
    97))) else (if n < 44 then (if d < 1 then 10 else 97) else (if d < 1 then 22 else 88))) else (if n < 47
    then (if n < 46 then (if d < 1 then 24 else 88) else 7) else (if n < 48 then 19 else (if n < 49 then 15
    else 16))))) else (if n < 58 then (if n < 54 then (if n < 52 then (if n < 51 then 20 else 25) else (if n <
    53 then 13 else 9)) else (if n < 56 then (if n < 55 then 26 else 6) else (if n < 57 then 42 else (if d < 1
    then 50 else 72)))) else (if n < 62 then (if n < 60 then (if n < 59 then 0 else 73) else (if n < 61 then 74
    else (if d < 1 then 73 else 74))) else (if n < 64 then (if n < 63 then 8 else 27) else (if n < 65 then 31
    else (if n < 66 then 18 else (if d < 1 then 71 else 75)))))))) else (if n < 100 then (if n < 83 then (if n
    < 75 then (if n < 71 then (if n < 69 then (if n < 68 then 76 else 38) else (if n < 70 then 42 else (if d <
    1 then 76 else (if d < 2 then 48 else (if d < 3 then 79 else 49))))) else (if n < 73 then (if n < 72 then
    (if d < 1 then 76 else (if d < 2 then 48 else (if d < 3 then 1 else 49))) else (if d < 1 then 76 else 34))
    else (if n < 74 then (if d < 1 then 48 else (if d < 2 then 75 else 49)) else (if d < 1 then 48 else (if d <
    2 then 1 else 49))))) else (if n < 79 then (if n < 77 then (if n < 76 then (if d < 1 then 71 else 77) else
    78) else (if n < 78 then 38 else 42)) else (if n < 81 then (if n < 80 then (if d < 1 then 78 else (if d < 2
    then 48 else (if d < 3 then 79 else 49))) else (if d < 1 then 78 else (if d < 2 then 48 else (if d < 3 then
    1 else 49)))) else (if n < 82 then (if d < 1 then 78 else 34) else (if d < 1 then 48 else (if d < 2 then 77
    else 49)))))) else (if n < 91 then (if n < 87 then (if n < 85 then (if n < 84 then (if d < 1 then 48 else
    (if d < 2 then 1 else 49)) else (if d < 1 then 80 else 37)) else (if n < 86 then 80 else (if d < 1 then 81
    else (if d < 2 then 47 else 37)))) else (if n < 89 then (if n < 88 then 0 else 81) else (if n < 90 then 82
    else (if d < 1 then 81 else (if d < 2 then 47 else 82))))) else (if n < 95 then (if n < 93 then (if n < 92
    then (if d < 1 then 66 else 83) else (if d < 1 then 71 else 83)) else (if n < 94 then 84 else 0)) else (if
    n < 97 then (if n < 96 then 38 else 42) else (if n < 98 then (if d < 1 then 84 else (if d < 2 then 48 else
    (if d < 3 then 79 else 49))) else (if n < 99 then (if d < 1 then 84 else (if d < 2 then 48 else (if d < 3
    then 1 else 49))) else (if d < 1 then 84 else 34))))))) else (if n < 117 then (if n < 108 then (if n < 104
    then (if n < 102 then (if n < 101 then (if d < 1 then 48 else (if d < 2 then 83 else 49)) else (if d < 1
    then 48 else (if d < 2 then 1 else 49))) else (if n < 103 then (if d < 1 then 65 else (if d < 2 then 75
    else 33)) else 0)) else (if n < 106 then (if n < 105 then 87 else (if d < 1 then 51 else 35)) else (if n <
    107 then (if d < 1 then 52 else (if d < 2 then 89 else 46)) else (if d < 1 then 52 else (if d < 2 then 1
    else 46))))) else (if n < 112 then (if n < 110 then (if n < 109 then 0 else 90) else (if n < 111 then 91
    else (if d < 1 then 90 else 91))) else (if n < 114 then (if n < 113 then (if d < 1 then 65 else (if d < 2
    then 92 else 45)) else (if d < 1 then 1 else 45)) else (if n < 115 then 0 else (if n < 116 then 93 else
    94))))) else (if n < 125 then (if n < 121 then (if n < 119 then (if n < 118 then (if d < 1 then 93 else (if
    d < 2 then 47 else 94)) else (if d < 1 then 77 else 96)) else (if n < 120 then (if d < 1 then 38 else 95)
    else 95)) else (if n < 123 then (if n < 122 then (if d < 1 then 53 else 35) else 0) else (if n < 124 then
    (if d < 1 then 96 else 31) else (if d < 1 then 52 else (if d < 2 then 98 else 46))))) else (if n < 129 then
    (if n < 127 then (if n < 126 then (if d < 1 then 52 else (if d < 2 then 98 else (if d < 3 then 47 else
    46))) else 99) else (if n < 128 then (if d < 1 then 98 else (if d < 2 then 47 else 99)) else 38)) else (if
    n < 131 then (if n < 130 then (if d < 1 then 38 else (if d < 2 then 51 else 35)) else (if d < 1 then 30
    else 45)) else (if n < 132 then 0 else (if n < 133 then 30 else (if d < 1 then 29 else (if d < 2 then 48
    else (if d < 3 then 38 else (if d < 4 then 49 else 45)))))))))))
  }

  // The choices: no specifiers, or no more of them, before the name of a type, which is taken for a
  // specifier; no declarator before a parenthesis, which is taken for part of one; and the name of a
  // type as a declarator, which is taken for a specifier.

  const CLASHES: set<Clash> := {
    Clash(3, 22, 42), Clash(3, 22, 53), Clash(39, 23, 42), Clash(55, 22, 42),
    Clash(57, 22, 42), Clash(78, 22, 42), Clash(83, 22, 42), Clash(88, 94, 48),
    Clash(126, 96, 48), Clash(126, 96, 49), Clash(126, 96, 34), Clash(126, 96, 37),
    Clash(126, 96, 47), Clash(127, 94, 48), Clash(127, 94, 37), Clash(127, 94, 47),
    Clash(128, 94, 48)
  }

  // ----- The grammar -----

  /** Positions i to j of rule n can all stand for nothing; no rule has more than five. */
  predicate Run(n: nat, i: nat, j: nat)
    requires n < 134
  {
    && (i < j ==> Empty(n, i)) && (i + 1 < j ==> Empty(n, i + 1)) && (i + 2 < j ==> Empty(n, i + 2))
    && (i + 3 < j ==> Empty(n, i + 3)) && (i + 4 < j ==> Empty(n, i + 4))
  }

  predicate Empty(n: nat, i: nat)
    requires n < 134
  {
    Symbol(n, i) < 103 && Nullable(Symbol(n, i))
  }

  lemma SymbolsAgree0()
    ensures forall n: nat, d: nat :: n < 67 && d < R2(n) ==> Symbol(n, d) == RhsAt(n, d)
  {
  }

  lemma SymbolsAgree1()
    ensures forall n: nat, d: nat :: 67 <= n < 134 && d < R2(n) ==> Symbol(n, d) == RhsAt(n, d)
  {
  }

  lemma {:induction false} SymbolsAgree()
    ensures forall n: nat, d: nat :: n < 134 && d < R2(n) ==> Symbol(n, d) == RhsAt(n, d)
  {
    hide R2, Symbol, RhsAt;
    SymbolsAgree0();
    SymbolsAgree1();
  }

  lemma SymbolsInRange()
    ensures forall n: nat, k: nat :: n < 134 && k < R2(n) ==> Symbol(n, k) < 103
    ensures forall n: nat :: n < 134 ==> R1(n) < 103
  {
  }

  lemma FirstsFit0()
    ensures forall n: nat, j: nat, a: nat ::
      n < 34 && n > ACCEPT && j < R2(n) && Symbol(n, j) < 103 && Run(n, 0, j) && FirstOf(Symbol(n, j), a) ==>
      R1(n) < 103 && FirstOf(R1(n), a)
  {
  }

  lemma FirstsFit1()
    ensures forall n: nat, j: nat, a: nat ::
      34 <= n < 67 && n > ACCEPT && j < R2(n) && Symbol(n, j) < 103 && Run(n, 0, j) && FirstOf(Symbol(n, j), a) ==>
      R1(n) < 103 && FirstOf(R1(n), a)
  {
  }

  lemma FirstsFit2()
    ensures forall n: nat, j: nat, a: nat ::
      67 <= n < 100 && n > ACCEPT && j < R2(n) && Symbol(n, j) < 103 && Run(n, 0, j) && FirstOf(Symbol(n, j), a) ==>
      R1(n) < 103 && FirstOf(R1(n), a)
  {
  }

  lemma FirstsFit3()
    ensures forall n: nat, j: nat, a: nat ::
      100 <= n < 134 && n > ACCEPT && j < R2(n) && Symbol(n, j) < 103 && Run(n, 0, j) && FirstOf(Symbol(n, j), a) ==>
      R1(n) < 103 && FirstOf(R1(n), a)
  {
  }

  lemma NothingFits0()
    ensures forall n: nat :: n < 45 && n > ACCEPT && Run(n, 0, R2(n)) ==> R1(n) < 103 && Nullable(R1(n))
  {
  }

  lemma NothingFits1()
    ensures forall n: nat :: 45 <= n < 90 && n > ACCEPT && Run(n, 0, R2(n)) ==> R1(n) < 103 && Nullable(R1(n))
  {
  }

  lemma NothingFits2()
    ensures forall n: nat :: 90 <= n < 134 && n > ACCEPT && Run(n, 0, R2(n)) ==> R1(n) < 103 && Nullable(R1(n))
  {
  }

  lemma NeighboursFit0()
    ensures forall n: nat, i: nat, j: nat, a: nat ::
      n < 20 && i < j < R2(n) && Symbol(n, j) < 103 && Run(n, i + 1, j) && FirstOf(Symbol(n, j), a) ==>
      Symbol(n, i) < 103 && FollowOf(Symbol(n, i), a)
  {
  }

  lemma NeighboursFit1()
    ensures forall n: nat, i: nat, j: nat, a: nat ::
      20 <= n < 34 && i < j < R2(n) && Symbol(n, j) < 103 && Run(n, i + 1, j) && FirstOf(Symbol(n, j), a) ==>
      Symbol(n, i) < 103 && FollowOf(Symbol(n, i), a)
  {
  }

  lemma NeighboursFit2()
    ensures forall n: nat, i: nat, j: nat, a: nat ::
      34 <= n < 67 && i < j < R2(n) && Symbol(n, j) < 103 && Run(n, i + 1, j) && FirstOf(Symbol(n, j), a) ==>
      Symbol(n, i) < 103 && FollowOf(Symbol(n, i), a)
  {
  }

  lemma NeighboursFit3()
    ensures forall n: nat, i: nat, j: nat, a: nat ::
      67 <= n < 84 && i < j < R2(n) && Symbol(n, j) < 103 && Run(n, i + 1, j) && FirstOf(Symbol(n, j), a) ==>
      Symbol(n, i) < 103 && FollowOf(Symbol(n, i), a)
  {
  }

  lemma NeighboursFit4()
    ensures forall n: nat, i: nat, j: nat, a: nat ::
      84 <= n < 100 && i < j < R2(n) && Symbol(n, j) < 103 && Run(n, i + 1, j) && FirstOf(Symbol(n, j), a) ==>
      Symbol(n, i) < 103 && FollowOf(Symbol(n, i), a)
  {
  }

  lemma NeighboursFit5()
    ensures forall n: nat, i: nat, j: nat, a: nat ::
      100 <= n < 112 && i < j < R2(n) && Symbol(n, j) < 103 && Run(n, i + 1, j) && FirstOf(Symbol(n, j), a) ==>
      Symbol(n, i) < 103 && FollowOf(Symbol(n, i), a)
  {
  }

  lemma NeighboursFit6()
    ensures forall n: nat, i: nat, j: nat, a: nat ::
      112 <= n < 120 && i < j < R2(n) && Symbol(n, j) < 103 && Run(n, i + 1, j) && FirstOf(Symbol(n, j), a) ==>
      Symbol(n, i) < 103 && FollowOf(Symbol(n, i), a)
  {
  }

  lemma NeighboursFit7()
    ensures forall n: nat, i: nat, j: nat, a: nat ::
      120 <= n < 128 && i < j < R2(n) && Symbol(n, j) < 103 && Run(n, i + 1, j) && FirstOf(Symbol(n, j), a) ==>
      Symbol(n, i) < 103 && FollowOf(Symbol(n, i), a)
  {
  }

  lemma NeighboursFit8()
    ensures forall n: nat, i: nat, j: nat, a: nat ::
      128 <= n < 134 && i < j < R2(n) && Symbol(n, j) < 103 && Run(n, i + 1, j) && FirstOf(Symbol(n, j), a) ==>
      Symbol(n, i) < 103 && FollowOf(Symbol(n, i), a)
  {
  }

  lemma LastsFit0()
    ensures forall n: nat, i: nat, a: nat ::
      n < 20 && n > ACCEPT && i < R2(n) && R1(n) < 103 && Run(n, i + 1, R2(n)) && FollowOf(R1(n), a) ==>
      Symbol(n, i) < 103 && FollowOf(Symbol(n, i), a)
  {
  }

  lemma LastsFit1()
    ensures forall n: nat, i: nat, a: nat ::
      20 <= n < 34 && n > ACCEPT && i < R2(n) && R1(n) < 103 && Run(n, i + 1, R2(n)) && FollowOf(R1(n), a) ==>
      Symbol(n, i) < 103 && FollowOf(Symbol(n, i), a)
  {
  }

  lemma LastsFit2()
    ensures forall n: nat, i: nat, a: nat ::
      34 <= n < 67 && n > ACCEPT && i < R2(n) && R1(n) < 103 && Run(n, i + 1, R2(n)) && FollowOf(R1(n), a) ==>
      Symbol(n, i) < 103 && FollowOf(Symbol(n, i), a)
  {
  }

  lemma LastsFit3()
    ensures forall n: nat, i: nat, a: nat ::
      67 <= n < 84 && n > ACCEPT && i < R2(n) && R1(n) < 103 && Run(n, i + 1, R2(n)) && FollowOf(R1(n), a) ==>
      Symbol(n, i) < 103 && FollowOf(Symbol(n, i), a)
  {
  }

  lemma LastsFit4()
    ensures forall n: nat, i: nat, a: nat ::
      84 <= n < 100 && n > ACCEPT && i < R2(n) && R1(n) < 103 && Run(n, i + 1, R2(n)) && FollowOf(R1(n), a) ==>
      Symbol(n, i) < 103 && FollowOf(Symbol(n, i), a)
  {
  }

  lemma LastsFit5()
    ensures forall n: nat, i: nat, a: nat ::
      100 <= n < 112 && n > ACCEPT && i < R2(n) && R1(n) < 103 && Run(n, i + 1, R2(n)) && FollowOf(R1(n), a) ==>
      Symbol(n, i) < 103 && FollowOf(Symbol(n, i), a)
  {
  }

  lemma LastsFit6()
    ensures forall n: nat, i: nat, a: nat ::
      112 <= n < 120 && n > ACCEPT && i < R2(n) && R1(n) < 103 && Run(n, i + 1, R2(n)) && FollowOf(R1(n), a) ==>
      Symbol(n, i) < 103 && FollowOf(Symbol(n, i), a)
  {
  }

  lemma LastsFit7()
    ensures forall n: nat, i: nat, a: nat ::
      120 <= n < 128 && n > ACCEPT && i < R2(n) && R1(n) < 103 && Run(n, i + 1, R2(n)) && FollowOf(R1(n), a) ==>
      Symbol(n, i) < 103 && FollowOf(Symbol(n, i), a)
  {
  }

  lemma LastsFit8()
    ensures forall n: nat, i: nat, a: nat ::
      128 <= n < 134 && n > ACCEPT && i < R2(n) && R1(n) < 103 && Run(n, i + 1, R2(n)) && FollowOf(R1(n), a) ==>
      Symbol(n, i) < 103 && FollowOf(Symbol(n, i), a)
  {
  }

  // ----- The tables -----

  /** Token x is shifted in state s. */
  predicate Shifts(s: nat, x: nat)
    requires s < 188
  {
    if s < 94 then (if s < 50 then (if s < 25 then (if s < 12 then (if s < 6 then (if s < 3 then (if s < 1 then
    false else (if s < 2 then (x == 0) else false)) else (if s < 4 then (x == 1 || 5 <= x <= 32 || x == 42)
    else false)) else (if s < 7 then (45 <= x <= 46) else false)) else (if s < 15 then (if s < 13 then (x == 38
    || x == 52) else (if s < 14 then false else (x == 23))) else (if s < 24 then false else (x == 38 || x ==
    52)))) else (if s < 38 then (if s < 30 then (if s < 27 then (if s < 26 then false else (x == 38 || x ==
    52)) else false) else (if s < 33 then (if s < 32 then (x == 48) else (x == 45)) else false)) else (if s <
    40 then (if s < 39 then (x == 38 || x == 42 || x == 48 || x == 50) else (5 <= x <= 11 || 13 <= x <= 22 ||
    24 <= x <= 28 || 31 <= x <= 32 || x == 42)) else false))) else (if s < 72 then (if s < 61 then (if s < 55
    then (if s < 52 then (if s < 51 then (x == 52) else (x == 38)) else (if s < 54 then false else (x == 52)))
    else (if s < 58 then (if s < 56 then (x == 1 || 5 <= x <= 11 || 13 <= x <= 22 || 24 <= x <= 28 || 31 <= x
    <= 32 || x == 42) else (if s < 57 then false else (5 <= x <= 11 || 13 <= x <= 22 || 24 <= x <= 28 || 31 <=
    x <= 32 || x == 42))) else (if s < 59 then (x == 52) else (if s < 60 then false else (5 <= x <= 11 || 13 <=
    x <= 22 || 24 <= x <= 28 || 31 <= x <= 32 || x == 42))))) else (if s < 66 then (if s < 62 then (x == 38)
    else (if s < 65 then false else (x == 1 || x == 38 || x == 42 || x == 48 || x == 50))) else (if s < 69 then
    (if s < 67 then (x == 8 || x == 18 || x == 27 || x == 31) else (if s < 68 then (x == 45) else (x == 47)))
    else (if s < 70 then false else (if s < 71 then (x == 38 || x == 42 || x == 48 || x == 50) else (x == 30 ||
    x == 33)))))) else (if s < 83 then (if s < 77 then (if s < 73 then (x == 34 || x == 48) else (if s < 75
    then false else (if s < 76 then (x == 51) else (46 <= x <= 47)))) else (if s < 80 then (if s < 78 then
    false else (if s < 79 then (5 <= x <= 11 || 13 <= x <= 22 || 24 <= x <= 28 || 31 <= x <= 32 || x == 42)
    else false)) else (if s < 81 then (45 <= x <= 46) else (if s < 82 then (x == 38 || x == 42 || x == 48 || x
    == 50 || x == 53) else (x == 46))))) else (if s < 88 then (if s < 84 then (x == 1 || 5 <= x <= 11 || 13 <=
    x <= 22 || 24 <= x <= 28 || 31 <= x <= 32 || x == 42) else (if s < 86 then false else (if s < 87 then (x ==
    38 || x == 42 || x == 48 || x == 50) else false))) else (if s < 89 then (5 <= x <= 11 || 13 <= x <= 22 ||
    24 <= x <= 28 || 31 <= x <= 32 || x == 38 || x == 42 || x == 48 || x == 50) else (if s < 93 then (x == 49)
    else false)))))) else (if s < 141 then (if s < 117 then (if s < 105 then (if s < 98 then (if s < 95 then (x
    == 8 || x == 18 || x == 27 || x == 31) else (if s < 97 then false else (x == 38 || x == 42 || x == 48 || x
    == 50))) else (if s < 103 then false else (if s < 104 then (x == 1 || 5 <= x <= 11 || 13 <= x <= 22 || 24
    <= x <= 28 || 31 <= x <= 32 || x == 42) else (x == 35)))) else (if s < 111 then (if s < 107 then (if s <
    106 then false else (x == 38 || x == 46)) else (if s < 110 then false else (x == 53))) else (if s < 114
    then (if s < 112 then false else (if s < 113 then (x == 1 || x == 38 || x == 42 || x == 48 || x == 50) else
    (x == 35))) else (if s < 115 then (x == 38 || x == 42 || x == 48 || x == 50) else (if s < 116 then false
    else (x == 34 || x == 48)))))) else (if s < 129 then (if s < 123 then (if s < 119 then (if s < 118 then (x
    == 45) else (x == 47)) else (if s < 122 then false else (x == 45))) else (if s < 125 then (if s < 124 then
    false else (x == 30)) else (if s < 127 then false else (if s < 128 then (x == 1 || x == 38 || x == 42 || x
    == 48 || x == 50) else (x == 38 || x == 42 || x == 48 || x == 50))))) else (if s < 133 then (if s < 131
    then (if s < 130 then false else (x == 34 || x == 48)) else (if s < 132 then false else (x == 45))) else
    (if s < 137 then false else (if s < 138 then (x == 31 || x == 51) else (if s < 140 then (x == 49) else (x
    == 37))))))) else (if s < 163 then (if s < 152 then (if s < 147 then (if s < 142 then (x == 47) else false)
    else (if s < 149 then (if s < 148 then (x == 49) else false) else (if s < 150 then (x == 49) else false)))
    else (if s < 157 then (if s < 154 then (if s < 153 then (x == 31) else false) else (if s < 155 then (x == 1
    || 5 <= x <= 11 || 13 <= x <= 22 || 24 <= x <= 28 || 31 <= x <= 32 || x == 42) else (if s < 156 then false
    else (x == 38 || x == 42 || x == 48 || x == 50 || x == 53)))) else (if s < 160 then (if s < 158 then (x ==
    49) else (if s < 159 then false else (x == 49))) else (if s < 162 then false else (x == 1 || 5 <= x <= 11
    || 13 <= x <= 22 || 24 <= x <= 28 || 31 <= x <= 32 || x == 42))))) else (if s < 174 then (if s < 166 then
    (if s < 165 then false else (x == 35)) else (if s < 171 then false else (if s < 172 then (5 <= x <= 11 ||
    13 <= x <= 22 || 24 <= x <= 28 || 31 <= x <= 32 || x == 37 || x == 42) else false))) else (if s < 181 then
    (if s < 176 then (x == 49) else (if s < 179 then false else (x == 49))) else false))))
  }

  /** An item of state s may have symbol x behind its dot. */
  predicate Expected(s: nat, x: nat)
    requires s < 188
  {
    s != 4 && x < 103 && if x < 54 then Shifts(s, x) else x > 54 && Starts(s, x)
  }

  predicate Shifted(s: nat, x: nat)
    requires s < 188
  {
    var k := Pact(s) + x;
    0 <= k && Entry(s, k) && Table(k) > 0
  }

  lemma ShiftsExist0()
    ensures forall s: nat, x: nat ::
      s < 30 && x < 54 && Shifts(s, x) ==> Shifted(s, x)
  {
  }

  lemma ShiftsExist1()
    ensures forall s: nat, x: nat ::
      30 <= s < 55 && x < 54 && Shifts(s, x) ==> Shifted(s, x)
  {
  }

  lemma ShiftsExist2()
    ensures forall s: nat, x: nat ::
      55 <= s < 70 && x < 54 && Shifts(s, x) ==> Shifted(s, x)
  {
  }

  lemma ShiftsExist3()
    ensures forall s: nat, x: nat ::
      70 <= s < 85 && x < 54 && Shifts(s, x) ==> Shifted(s, x)
  {
  }

  lemma ShiftsExist4()
    ensures forall s: nat, x: nat ::
      85 <= s < 97 && x < 54 && Shifts(s, x) ==> Shifted(s, x)
  {
  }

  lemma ShiftsExist5()
    ensures forall s: nat, x: nat ::
      97 <= s < 110 && x < 54 && Shifts(s, x) ==> Shifted(s, x)
  {
  }

  lemma ShiftsExist6()
    ensures forall s: nat, x: nat ::
      110 <= s < 140 && x < 54 && Shifts(s, x) ==> Shifted(s, x)
  {
  }

  lemma ShiftsExist7()
    ensures forall s: nat, x: nat ::
      140 <= s < 188 && x < 54 && Shifts(s, x) ==> Shifted(s, x)
  {
  }

  lemma KernelsExpect0()
    ensures forall s: nat, n: nat, d: nat ::
      s < 40 && d > 0 && n < 134 && d < R2(n) && Kernel(s, n, d) ==> Expected(s, Symbol(n, d))
  {
  }

  lemma KernelsExpect1()
    ensures forall s: nat, n: nat, d: nat ::
      40 <= s < 70 && d > 0 && n < 134 && d < R2(n) && Kernel(s, n, d) ==> Expected(s, Symbol(n, d))
  {
  }

  lemma KernelsExpect2()
    ensures forall s: nat, n: nat, d: nat ::
      70 <= s < 100 && d > 0 && n < 134 && d < R2(n) && Kernel(s, n, d) ==> Expected(s, Symbol(n, d))
  {
  }

  lemma KernelsExpect3()
    ensures forall s: nat, n: nat, d: nat ::
      100 <= s < 140 && d > 0 && n < 134 && d < R2(n) && Kernel(s, n, d) ==> Expected(s, Symbol(n, d))
  {
  }

  lemma KernelsExpect4()
    ensures forall s: nat, n: nat, d: nat ::
      140 <= s < 188 && d > 0 && n < 134 && d < R2(n) && Kernel(s, n, d) ==> Expected(s, Symbol(n, d))
  {
  }

  lemma StartsExpect0()
    ensures forall s: nat, n: nat ::
      s < 39 && n < 134 && R2(n) > 0 && Starts(s, R1(n)) ==> Expected(s, Symbol(n, 0))
  {
  }

  lemma StartsExpect1()
    ensures forall s: nat, n: nat ::
      39 <= s < 58 && n < 134 && R2(n) > 0 && Starts(s, R1(n)) ==> Expected(s, Symbol(n, 0))
  {
  }

  lemma StartsExpect2()
    ensures forall s: nat, n: nat ::
      58 <= s < 85 && n < 134 && R2(n) > 0 && Starts(s, R1(n)) ==> Expected(s, Symbol(n, 0))
  {
  }

  lemma StartsExpect3()
    ensures forall s: nat, n: nat ::
      85 <= s < 104 && n < 134 && R2(n) > 0 && Starts(s, R1(n)) ==> Expected(s, Symbol(n, 0))
  {
  }

  lemma StartsExpect4()
    ensures forall s: nat, n: nat ::
      104 <= s < 188 && n < 134 && R2(n) > 0 && Starts(s, R1(n)) ==> Expected(s, Symbol(n, 0))
  {
  }

  lemma StartsForward0()
    ensures forall v: nat, s: nat, n: nat ::
      v < 20 && v > 0 && s < 188 && From(v, s) && n < 134 && R2(n) > 0 && Symbol(n, 0) == Stos(v) &&
          Starts(s, R1(n)) ==>
      Kernel(v, n, 1)
  {
  }

  lemma StartsForward1()
    ensures forall v: nat, s: nat, n: nat ::
      20 <= v < 35 && v > 0 && s < 188 && From(v, s) && n < 134 && R2(n) > 0 && Symbol(n, 0) == Stos(v) &&
          Starts(s, R1(n)) ==>
      Kernel(v, n, 1)
  {
  }

  lemma StartsForward2()
    ensures forall v: nat, s: nat, n: nat ::
      35 <= v < 50 && v > 0 && s < 188 && From(v, s) && n < 134 && R2(n) > 0 && Symbol(n, 0) == Stos(v) &&
          Starts(s, R1(n)) ==>
      Kernel(v, n, 1)
  {
  }

  lemma StartsForward3()
    ensures forall v: nat, s: nat, n: nat ::
      50 <= v < 65 && v > 0 && s < 188 && From(v, s) && n < 134 && R2(n) > 0 && Symbol(n, 0) == Stos(v) &&
          Starts(s, R1(n)) ==>
      Kernel(v, n, 1)
  {
  }

  lemma StartsForward4()
    ensures forall v: nat, s: nat, n: nat ::
      65 <= v < 80 && v > 0 && s < 188 && From(v, s) && n < 134 && R2(n) > 0 && Symbol(n, 0) == Stos(v) &&
          Starts(s, R1(n)) ==>
      Kernel(v, n, 1)
  {
  }

  lemma StartsForward5()
    ensures forall v: nat, s: nat, n: nat ::
      80 <= v < 110 && v > 0 && s < 188 && From(v, s) && n < 134 && R2(n) > 0 && Symbol(n, 0) == Stos(v) &&
          Starts(s, R1(n)) ==>
      Kernel(v, n, 1)
  {
  }

  lemma StartsForward6()
    ensures forall v: nat, s: nat, n: nat ::
      110 <= v < 140 && v > 0 && s < 188 && From(v, s) && n < 134 && R2(n) > 0 && Symbol(n, 0) == Stos(v) &&
          Starts(s, R1(n)) ==>
      Kernel(v, n, 1)
  {
  }

  lemma StartsForward7()
    ensures forall v: nat, s: nat, n: nat ::
      140 <= v < 165 && v > 0 && s < 188 && From(v, s) && n < 134 && R2(n) > 0 && Symbol(n, 0) == Stos(v) &&
          Starts(s, R1(n)) ==>
      Kernel(v, n, 1)
  {
  }

  lemma StartsForward8()
    ensures forall v: nat, s: nat, n: nat ::
      165 <= v < 188 && v > 0 && s < 188 && From(v, s) && n < 134 && R2(n) > 0 && Symbol(n, 0) == Stos(v) &&
          Starts(s, R1(n)) ==>
      Kernel(v, n, 1)
  {
  }

  lemma KernelsForward0()
    ensures forall v: nat, s: nat, n: nat, d: nat ::
      v < 20 && v > 0 && s < 188 && From(v, s) && d > 0 && n < 134 && d < R2(n) && Symbol(n, d) == Stos(v) &&
          Kernel(s, n, d) ==>
      Kernel(v, n, d + 1)
  {
  }

  lemma KernelsForward1()
    ensures forall v: nat, s: nat, n: nat, d: nat ::
      20 <= v < 30 && v > 0 && s < 188 && From(v, s) && d > 0 && n < 134 && d < R2(n) && Symbol(n, d) == Stos(v) &&
          Kernel(s, n, d) ==>
      Kernel(v, n, d + 1)
  {
  }

  lemma KernelsForward2()
    ensures forall v: nat, s: nat, n: nat, d: nat ::
      30 <= v < 40 && v > 0 && s < 188 && From(v, s) && d > 0 && n < 134 && d < R2(n) && Symbol(n, d) == Stos(v) &&
          Kernel(s, n, d) ==>
      Kernel(v, n, d + 1)
  {
  }

  lemma KernelsForward3()
    ensures forall v: nat, s: nat, n: nat, d: nat ::
      40 <= v < 48 && v > 0 && s < 188 && From(v, s) && d > 0 && n < 134 && d < R2(n) && Symbol(n, d) == Stos(v) &&
          Kernel(s, n, d) ==>
      Kernel(v, n, d + 1)
  {
  }

  lemma KernelsForward4()
    ensures forall v: nat, s: nat, n: nat, d: nat ::
      48 <= v < 55 && v > 0 && s < 188 && From(v, s) && d > 0 && n < 134 && d < R2(n) && Symbol(n, d) == Stos(v) &&
          Kernel(s, n, d) ==>
      Kernel(v, n, d + 1)
  {
  }

  lemma KernelsForward5()
    ensures forall v: nat, s: nat, n: nat, d: nat ::
      55 <= v < 62 && v > 0 && s < 188 && From(v, s) && d > 0 && n < 134 && d < R2(n) && Symbol(n, d) == Stos(v) &&
          Kernel(s, n, d) ==>
      Kernel(v, n, d + 1)
  {
  }

  lemma KernelsForward6()
    ensures forall v: nat, s: nat, n: nat, d: nat ::
      62 <= v < 70 && v > 0 && s < 188 && From(v, s) && d > 0 && n < 134 && d < R2(n) && Symbol(n, d) == Stos(v) &&
          Kernel(s, n, d) ==>
      Kernel(v, n, d + 1)
  {
  }

  lemma KernelsForward7()
    ensures forall v: nat, s: nat, n: nat, d: nat ::
      70 <= v < 77 && v > 0 && s < 188 && From(v, s) && d > 0 && n < 134 && d < R2(n) && Symbol(n, d) == Stos(v) &&
          Kernel(s, n, d) ==>
      Kernel(v, n, d + 1)
  {
  }

  lemma KernelsForward8()
    ensures forall v: nat, s: nat, n: nat, d: nat ::
      77 <= v < 85 && v > 0 && s < 188 && From(v, s) && d > 0 && n < 134 && d < R2(n) && Symbol(n, d) == Stos(v) &&
          Kernel(s, n, d) ==>
      Kernel(v, n, d + 1)
  {
  }

  lemma KernelsForward9()
    ensures forall v: nat, s: nat, n: nat, d: nat ::
      85 <= v < 100 && v > 0 && s < 188 && From(v, s) && d > 0 && n < 134 && d < R2(n) &&
          Symbol(n, d) == Stos(v) && Kernel(s, n, d) ==>
      Kernel(v, n, d + 1)
  {
  }

  lemma KernelsForward10()
    ensures forall v: nat, s: nat, n: nat, d: nat ::
      100 <= v < 107 && v > 0 && s < 188 && From(v, s) && d > 0 && n < 134 && d < R2(n) &&
          Symbol(n, d) == Stos(v) && Kernel(s, n, d) ==>
      Kernel(v, n, d + 1)
  {
  }

  lemma KernelsForward11()
    ensures forall v: nat, s: nat, n: nat, d: nat ::
      107 <= v < 115 && v > 0 && s < 188 && From(v, s) && d > 0 && n < 134 && d < R2(n) &&
          Symbol(n, d) == Stos(v) && Kernel(s, n, d) ==>
      Kernel(v, n, d + 1)
  {
  }

  lemma KernelsForward12()
    ensures forall v: nat, s: nat, n: nat, d: nat ::
      115 <= v < 120 && v > 0 && s < 188 && From(v, s) && d > 0 && n < 134 && d < R2(n) &&
          Symbol(n, d) == Stos(v) && Kernel(s, n, d) ==>
      Kernel(v, n, d + 1)
  {
  }

  lemma KernelsForward13()
    ensures forall v: nat, s: nat, n: nat, d: nat ::
      120 <= v < 125 && v > 0 && s < 188 && From(v, s) && d > 0 && n < 134 && d < R2(n) &&
          Symbol(n, d) == Stos(v) && Kernel(s, n, d) ==>
      Kernel(v, n, d + 1)
  {
  }

  lemma KernelsForward14()
    ensures forall v: nat, s: nat, n: nat, d: nat ::
      125 <= v < 130 && v > 0 && s < 188 && From(v, s) && d > 0 && n < 134 && d < R2(n) &&
          Symbol(n, d) == Stos(v) && Kernel(s, n, d) ==>
      Kernel(v, n, d + 1)
  {
  }

  lemma KernelsForward15()
    ensures forall v: nat, s: nat, n: nat, d: nat ::
      130 <= v < 145 && v > 0 && s < 188 && From(v, s) && d > 0 && n < 134 && d < R2(n) &&
          Symbol(n, d) == Stos(v) && Kernel(s, n, d) ==>
      Kernel(v, n, d + 1)
  {
  }

  lemma KernelsForward16()
    ensures forall v: nat, s: nat, n: nat, d: nat ::
      145 <= v < 160 && v > 0 && s < 188 && From(v, s) && d > 0 && n < 134 && d < R2(n) &&
          Symbol(n, d) == Stos(v) && Kernel(s, n, d) ==>
      Kernel(v, n, d + 1)
  {
  }

  lemma KernelsForward17()
    ensures forall v: nat, s: nat, n: nat, d: nat ::
      160 <= v < 174 && v > 0 && s < 188 && From(v, s) && d > 0 && n < 134 && d < R2(n) &&
          Symbol(n, d) == Stos(v) && Kernel(s, n, d) ==>
      Kernel(v, n, d + 1)
  {
  }

  lemma KernelsForward18()
    ensures forall v: nat, s: nat, n: nat, d: nat ::
      174 <= v < 181 && v > 0 && s < 188 && From(v, s) && d > 0 && n < 134 && d < R2(n) &&
          Symbol(n, d) == Stos(v) && Kernel(s, n, d) ==>
      Kernel(v, n, d + 1)
  {
  }

  lemma KernelsForward19()
    ensures forall v: nat, s: nat, n: nat, d: nat ::
      181 <= v < 188 && v > 0 && s < 188 && From(v, s) && d > 0 && n < 134 && d < R2(n) &&
          Symbol(n, d) == Stos(v) && Kernel(s, n, d) ==>
      Kernel(v, n, d + 1)
  {
  }

  /** Before token a state s reduces by rule n. */
  predicate ReducesOn(s: nat, n: nat, a: nat)
    requires s < 188
  {
    var k := Pact(s) + a;
    if Pact(s) != -92 && 0 <= k <= 515 && Check(k) == a then
      Table(k) <= 0 && Table(k) == -(n as int)
    else
      Defact(s) == n
  }

  predicate Settled(s: nat, n: nat, a: nat)
    requires s < 188
  {
    s != 4 && (ReducesOn(s, n, a) || Clash(s, n, a) in CLASHES)
  }

  lemma KernelsReduce0()
    ensures forall s: nat, n: nat, a: nat ::
      s < 13 && ACCEPT < n < 134 && R2(n) > 0 && Kernel(s, n, R2(n)) && R1(n) < 103 && a < 54 && FollowOf(R1(n), a) ==>
      Settled(s, n, a)
  {
  }

  lemma KernelsReduce1()
    ensures forall s: nat, n: nat, a: nat ::
      13 <= s < 25 && ACCEPT < n < 134 && R2(n) > 0 && Kernel(s, n, R2(n)) && R1(n) < 103 && a < 54 &&
          FollowOf(R1(n), a) ==>
      Settled(s, n, a)
  {
  }

  lemma KernelsReduce2()
    ensures forall s: nat, n: nat, a: nat ::
      25 <= s < 33 && ACCEPT < n < 134 && R2(n) > 0 && Kernel(s, n, R2(n)) && R1(n) < 103 && a < 54 &&
          FollowOf(R1(n), a) ==>
      Settled(s, n, a)
  {
  }

  lemma KernelsReduce3()
    ensures forall s: nat, n: nat, a: nat ::
      33 <= s < 38 && ACCEPT < n < 134 && R2(n) > 0 && Kernel(s, n, R2(n)) && R1(n) < 103 && a < 54 &&
          FollowOf(R1(n), a) ==>
      Settled(s, n, a)
  {
  }

  lemma KernelsReduce4()
    ensures forall s: nat, n: nat, a: nat ::
      38 <= s < 39 && ACCEPT < n < 134 && R2(n) > 0 && Kernel(s, n, R2(n)) && R1(n) < 103 && a < 54 &&
          FollowOf(R1(n), a) ==>
      Settled(s, n, a)
  {
  }

  lemma KernelsReduce5()
    ensures forall s: nat, n: nat, a: nat ::
      39 <= s < 40 && ACCEPT < n < 134 && R2(n) > 0 && Kernel(s, n, R2(n)) && R1(n) < 103 && a < 54 &&
          FollowOf(R1(n), a) ==>
      Settled(s, n, a)
  {
  }

  lemma KernelsReduce6()
    ensures forall s: nat, n: nat, a: nat ::
      40 <= s < 42 && ACCEPT < n < 134 && R2(n) > 0 && Kernel(s, n, R2(n)) && R1(n) < 103 && a < 54 &&
          FollowOf(R1(n), a) ==>
      Settled(s, n, a)
  {
  }

  lemma KernelsReduce7()
    ensures forall s: nat, n: nat, a: nat ::
      42 <= s < 50 && ACCEPT < n < 134 && R2(n) > 0 && Kernel(s, n, R2(n)) && R1(n) < 103 && a < 54 &&
          FollowOf(R1(n), a) ==>
      Settled(s, n, a)
  {
  }

  lemma KernelsReduce8()
    ensures forall s: nat, n: nat, a: nat ::
      50 <= s < 60 && ACCEPT < n < 134 && R2(n) > 0 && Kernel(s, n, R2(n)) && R1(n) < 103 && a < 54 &&
          FollowOf(R1(n), a) ==>
      Settled(s, n, a)
  {
  }

  lemma KernelsReduce9()
    ensures forall s: nat, n: nat, a: nat ::
      60 <= s < 70 && ACCEPT < n < 134 && R2(n) > 0 && Kernel(s, n, R2(n)) && R1(n) < 103 && a < 54 &&
          FollowOf(R1(n), a) ==>
      Settled(s, n, a)
  {
  }

  lemma KernelsReduce10()
    ensures forall s: nat, n: nat, a: nat ::
      70 <= s < 80 && ACCEPT < n < 134 && R2(n) > 0 && Kernel(s, n, R2(n)) && R1(n) < 103 && a < 54 &&
          FollowOf(R1(n), a) ==>
      Settled(s, n, a)
  {
  }

  lemma KernelsReduce11()
    ensures forall s: nat, n: nat, a: nat ::
      80 <= s < 90 && ACCEPT < n < 134 && R2(n) > 0 && Kernel(s, n, R2(n)) && R1(n) < 103 && a < 54 &&
          FollowOf(R1(n), a) ==>
      Settled(s, n, a)
  {
  }

  lemma KernelsReduce12()
    ensures forall s: nat, n: nat, a: nat ::
      90 <= s < 100 && ACCEPT < n < 134 && R2(n) > 0 && Kernel(s, n, R2(n)) && R1(n) < 103 && a < 54 &&
          FollowOf(R1(n), a) ==>
      Settled(s, n, a)
  {
  }

  lemma KernelsReduce13()
    ensures forall s: nat, n: nat, a: nat ::
      100 <= s < 110 && ACCEPT < n < 134 && R2(n) > 0 && Kernel(s, n, R2(n)) && R1(n) < 103 && a < 54 &&
          FollowOf(R1(n), a) ==>
      Settled(s, n, a)
  {
  }

  lemma KernelsReduce14()
    ensures forall s: nat, n: nat, a: nat ::
      110 <= s < 120 && ACCEPT < n < 134 && R2(n) > 0 && Kernel(s, n, R2(n)) && R1(n) < 103 && a < 54 &&
          FollowOf(R1(n), a) ==>
      Settled(s, n, a)
  {
  }

  lemma KernelsReduce15()
    ensures forall s: nat, n: nat, a: nat ::
      120 <= s < 130 && ACCEPT < n < 134 && R2(n) > 0 && Kernel(s, n, R2(n)) && R1(n) < 103 && a < 54 &&
          FollowOf(R1(n), a) ==>
      Settled(s, n, a)
  {
  }

  lemma KernelsReduce16()
    ensures forall s: nat, n: nat, a: nat ::
      130 <= s < 140 && ACCEPT < n < 134 && R2(n) > 0 && Kernel(s, n, R2(n)) && R1(n) < 103 && a < 54 &&
          FollowOf(R1(n), a) ==>
      Settled(s, n, a)
  {
  }

  lemma KernelsReduce17()
    ensures forall s: nat, n: nat, a: nat ::
      140 <= s < 150 && ACCEPT < n < 134 && R2(n) > 0 && Kernel(s, n, R2(n)) && R1(n) < 103 && a < 54 &&
          FollowOf(R1(n), a) ==>
      Settled(s, n, a)
  {
  }

  lemma KernelsReduce18()
    ensures forall s: nat, n: nat, a: nat ::
      150 <= s < 160 && ACCEPT < n < 134 && R2(n) > 0 && Kernel(s, n, R2(n)) && R1(n) < 103 && a < 54 &&
          FollowOf(R1(n), a) ==>
      Settled(s, n, a)
  {
  }

  lemma KernelsReduce19()
    ensures forall s: nat, n: nat, a: nat ::
      160 <= s < 170 && ACCEPT < n < 134 && R2(n) > 0 && Kernel(s, n, R2(n)) && R1(n) < 103 && a < 54 &&
          FollowOf(R1(n), a) ==>
      Settled(s, n, a)
  {
  }

  lemma KernelsReduce20()
    ensures forall s: nat, n: nat, a: nat ::
      170 <= s < 188 && ACCEPT < n < 134 && R2(n) > 0 && Kernel(s, n, R2(n)) && R1(n) < 103 && a < 54 &&
          FollowOf(R1(n), a) ==>
      Settled(s, n, a)
  {
  }

  lemma StartsReduce0()
    ensures forall s: nat, n: nat, a: nat ::
      s < 39 && ACCEPT < n < 134 && R2(n) == 0 && Starts(s, R1(n)) && R1(n) < 103 && a < 54 && FollowOf(R1(n), a) ==>
      Settled(s, n, a)
  {
  }

  lemma StartsReduce1()
    ensures forall s: nat, n: nat, a: nat ::
      39 <= s < 58 && ACCEPT < n < 134 && R2(n) == 0 && Starts(s, R1(n)) && R1(n) < 103 && a < 54 &&
          FollowOf(R1(n), a) ==>
      Settled(s, n, a)
  {
  }

  lemma StartsReduce2()
    ensures forall s: nat, n: nat, a: nat ::
      58 <= s < 70 && ACCEPT < n < 134 && R2(n) == 0 && Starts(s, R1(n)) && R1(n) < 103 && a < 54 &&
          FollowOf(R1(n), a) ==>
      Settled(s, n, a)
  {
  }

  lemma StartsReduce3()
    ensures forall s: nat, n: nat, a: nat ::
      70 <= s < 80 && ACCEPT < n < 134 && R2(n) == 0 && Starts(s, R1(n)) && R1(n) < 103 && a < 54 &&
          FollowOf(R1(n), a) ==>
      Settled(s, n, a)
  {
  }

  lemma StartsReduce4()
    ensures forall s: nat, n: nat, a: nat ::
      80 <= s < 90 && ACCEPT < n < 134 && R2(n) == 0 && Starts(s, R1(n)) && R1(n) < 103 && a < 54 &&
          FollowOf(R1(n), a) ==>
      Settled(s, n, a)
  {
  }

  lemma StartsReduce5()
    ensures forall s: nat, n: nat, a: nat ::
      90 <= s < 110 && ACCEPT < n < 134 && R2(n) == 0 && Starts(s, R1(n)) && R1(n) < 103 && a < 54 &&
          FollowOf(R1(n), a) ==>
      Settled(s, n, a)
  {
  }

  lemma StartsReduce6()
    ensures forall s: nat, n: nat, a: nat ::
      110 <= s < 150 && ACCEPT < n < 134 && R2(n) == 0 && Starts(s, R1(n)) && R1(n) < 103 && a < 54 &&
          FollowOf(R1(n), a) ==>
      Settled(s, n, a)
  {
  }

  lemma StartsReduce7()
    ensures forall s: nat, n: nat, a: nat ::
      150 <= s < 188 && ACCEPT < n < 134 && R2(n) == 0 && Starts(s, R1(n)) && R1(n) < 103 && a < 54 &&
          FollowOf(R1(n), a) ==>
      Settled(s, n, a)
  {
  }

  lemma ClashesKept()
    ensures !ReducesOn(3, 22, 42) && !ReducesOn(3, 22, 53) && !ReducesOn(39, 23, 42) && !ReducesOn(55, 22, 42)
    ensures !ReducesOn(57, 22, 42) && !ReducesOn(78, 22, 42) && !ReducesOn(83, 22, 42) && !ReducesOn(88, 94, 48)
    ensures !ReducesOn(126, 96, 48) && !ReducesOn(126, 96, 49) && !ReducesOn(126, 96, 34) && !ReducesOn(126, 96, 37)
    ensures !ReducesOn(126, 96, 47) && !ReducesOn(127, 94, 48) && !ReducesOn(127, 94, 37) && !ReducesOn(127, 94, 47)
    ensures !ReducesOn(128, 94, 48)
  {
  }

  lemma {:induction false} ClashesClash()
    ensures forall c :: c in CLASHES ==>
      c.state < 188 && c.rule < 134 && c.token < 54 && !ReducesOn(c.state, c.rule, c.token)
  {
    hide ReducesOn;
    ClashesKept();
  }
}
