/** The automaton that the shipped scanner tables encode, and the proof that it matches the tokens of C
    source as its rules describe them: every text, by the first rule that matches it. */
module GenksymsTokens {
  import opened FirstStage
  import opened FlexTables
  import opened GenksymsTables
  import opened Lexemes
  import opened LexemePhases
  import opened Types
  import opened Wrappers

  // ----- The automaton -----

  /** The transitions, with those of the template states the tables are compressed with. */
  function Go(s: nat, c: nat): nat
    requires s < 85
  {
    if s < 42 then (if s < 21 then (if s < 10 then (if s < 5 then (if s < 2 then (if s < 1 then 0 else (if c <
    14 then (if c < 7 then (if c < 3 then (if c < 2 then 4 else 5) else (if c < 5 then (if c < 4 then 6 else 5)
    else (if c < 6 then 7 else 4))) else (if c < 10 then (if c < 8 then 8 else (if c < 9 then 9 else 10)) else
    (if c < 12 then (if c < 11 then 11 else 9) else (if c < 13 then 12 else 13)))) else (if c < 20 then (if c <
    17 then (if c < 15 then 14 else 15) else (if c < 18 then 16 else (if c < 19 then 9 else 17))) else (if c <
    24 then (if c < 23 then 8 else 18) else (if c < 26 then 8 else (if c < 27 then 4 else (if c < 28 then 8
    else 19))))))) else (if s < 3 then (if c < 14 then (if c < 7 then (if c < 3 then (if c < 2 then 4 else 5)
    else (if c < 5 then (if c < 4 then 6 else 5) else (if c < 6 then 7 else 20))) else (if c < 10 then (if c <
    8 then 8 else (if c < 9 then 9 else 10)) else (if c < 12 then (if c < 11 then 11 else 9) else (if c < 13
    then 12 else 13)))) else (if c < 20 then (if c < 17 then (if c < 15 then 14 else 15) else (if c < 18 then
    16 else (if c < 19 then 9 else 17))) else (if c < 24 then (if c < 23 then 8 else 18) else (if c < 26 then 8
    else (if c < 27 then 4 else (if c < 28 then 8 else 19)))))) else 72)) else (if s < 7 then (if s < 6 then
    (if c < 5 then (if c < 2 then 72 else (if c < 3 then 21 else (if c < 4 then 72 else 21))) else 72) else 72)
    else (if s < 8 then (if c < 6 then (if c < 5 then 22 else 23) else (if c < 26 then 22 else (if c < 27 then
    24 else 22))) else (if s < 9 then (if c < 14 then (if c < 7 then 72 else (if c < 8 then 25 else 72)) else
    (if c < 20 then (if c < 17 then 25 else 72) else (if c < 26 then 25 else (if c < 27 then 72 else (if c < 28
    then 25 else 72))))) else (if c < 18 then 72 else (if c < 19 then 26 else 72)))))) else (if s < 15 then (if
    s < 12 then (if s < 11 then (if c < 10 then (if c < 9 then 72 else 26) else (if c < 19 then (if c < 18 then
    72 else 26) else 72)) else (if c < 11 then (if c < 10 then 27 else 28) else (if c < 26 then 27 else (if c <
    27 then 29 else 27)))) else (if s < 13 then (if c < 18 then 72 else (if c < 20 then 26 else 72)) else (if s
    < 14 then (if c < 14 then (if c < 13 then 72 else 30) else (if c < 17 then 31 else 72)) else (if c < 14
    then (if c < 13 then 72 else 32) else (if c < 21 then (if c < 17 then (if c < 16 then 33 else 34) else 72)
    else (if c < 25 then (if c < 23 then (if c < 22 then 35 else 72) else (if c < 24 then 36 else 37)) else (if
    c < 27 then (if c < 26 then 38 else 72) else (if c < 28 then 36 else 72)))))))) else (if s < 18 then (if s
    < 16 then (if c < 14 then (if c < 13 then 72 else 32) else (if c < 21 then (if c < 17 then 39 else 72) else
    (if c < 25 then (if c < 23 then (if c < 22 then 35 else 72) else (if c < 24 then 36 else 37)) else (if c <
    27 then 72 else (if c < 28 then 36 else 72))))) else (if s < 17 then (if c < 17 then 72 else (if c < 19
    then 26 else 72)) else (if c < 18 then 72 else (if c < 20 then 26 else 72)))) else (if s < 19 then (if c <
    14 then (if c < 7 then (if c < 5 then 72 else (if c < 6 then 40 else 72)) else (if c < 10 then (if c < 8
    then 25 else 72) else (if c < 11 then 41 else 72))) else (if c < 20 then (if c < 17 then 25 else 72) else
    (if c < 26 then 25 else (if c < 27 then 72 else (if c < 28 then 25 else 72))))) else (if s < 20 then (if c
    < 18 then 72 else (if c < 19 then 26 else (if c < 28 then 72 else 26))) else (if c < 4 then (if c < 2 then
    42 else (if c < 3 then 43 else 44)) else 42)))))) else (if s < 31 then (if s < 26 then (if s < 23 then (if
    s < 22 then (if c < 5 then (if c < 2 then 72 else (if c < 3 then 21 else (if c < 4 then 72 else 21))) else
    72) else (if c < 6 then (if c < 5 then 22 else 23) else (if c < 26 then 22 else (if c < 27 then 24 else
    22)))) else (if s < 24 then 72 else (if s < 25 then (if c < 4 then (if c < 3 then 45 else 72) else 45) else
    (if c < 14 then (if c < 7 then 72 else (if c < 8 then 25 else 72)) else (if c < 20 then (if c < 17 then 25
    else 72) else (if c < 26 then 25 else (if c < 27 then 72 else (if c < 28 then 25 else 72)))))))) else (if s
    < 28 then (if s < 27 then 72 else (if c < 11 then (if c < 10 then 27 else 28) else (if c < 26 then 27 else
    (if c < 27 then 29 else 27)))) else (if s < 29 then 72 else (if s < 30 then (if c < 4 then (if c < 3 then
    46 else 72) else 46) else (if c < 14 then (if c < 13 then 72 else 47) else 72))))) else (if s < 36 then (if
    s < 33 then (if c < 14 then 72 else (if c < 21 then (if c < 17 then 31 else 72) else (if c < 24 then (if c
    < 22 then 48 else 49) else (if c < 27 then 72 else (if c < 28 then 49 else 72))))) else (if s < 34 then (if
    c < 14 then (if c < 13 then 72 else 32) else (if c < 21 then (if c < 17 then (if c < 16 then 33 else 34)
    else 72) else (if c < 25 then (if c < 23 then (if c < 22 then 35 else 72) else (if c < 24 then 36 else 37))
    else (if c < 27 then 72 else (if c < 28 then 36 else 72))))) else (if s < 35 then (if c < 14 then (if c <
    13 then 72 else 32) else (if c < 21 then (if c < 17 then 34 else 72) else (if c < 22 then 35 else 72)))
    else (if c < 14 then (if c < 11 then 72 else (if c < 13 then 50 else 72)) else (if c < 17 then 51 else
    72))))) else (if s < 39 then (if s < 37 then (if c < 24 then 72 else (if c < 25 then 52 else 72)) else (if
    s < 38 then (if c < 23 then 72 else (if c < 27 then (if c < 24 then 52 else 72) else (if c < 28 then 52
    else 72))) else (if c < 14 then 72 else (if c < 20 then (if c < 17 then 53 else 72) else (if c < 23 then 53
    else 72))))) else (if s < 40 then (if c < 14 then (if c < 13 then 72 else 32) else (if c < 21 then (if c <
    17 then 39 else 72) else (if c < 25 then (if c < 23 then (if c < 22 then 35 else 72) else (if c < 24 then
    36 else 37)) else (if c < 27 then 72 else (if c < 28 then 36 else 72))))) else (if s < 41 then (if c < 6
    then (if c < 5 then 22 else 23) else (if c < 26 then 22 else (if c < 27 then 24 else 22))) else (if c < 11
    then (if c < 10 then 27 else 28) else (if c < 26 then 27 else (if c < 27 then 29 else 27))))))))) else (if
    s < 63 then (if s < 52 then (if s < 47 then (if s < 44 then (if s < 43 then (if c < 4 then (if c < 3 then
    42 else 44) else 42) else (if c < 14 then (if c < 4 then (if c < 2 then 42 else (if c < 3 then 43 else 44))
    else 42) else (if c < 17 then (if c < 15 then 54 else 55) else 42))) else (if s < 45 then 72 else (if s <
    46 then (if c < 6 then (if c < 5 then 22 else 23) else (if c < 26 then 22 else (if c < 27 then 24 else
    22))) else (if c < 11 then (if c < 10 then 27 else 28) else (if c < 26 then 27 else (if c < 27 then 29 else
    27)))))) else (if s < 49 then (if s < 48 then 72 else (if c < 14 then (if c < 11 then 72 else (if c < 13
    then 56 else 72)) else (if c < 17 then 57 else 72))) else (if s < 50 then 72 else (if s < 51 then (if c <
    14 then 72 else (if c < 17 then 51 else 72)) else (if c < 14 then 72 else (if c < 22 then (if c < 17 then
    51 else 72) else (if c < 24 then 58 else (if c < 27 then 72 else (if c < 28 then 58 else 72))))))))) else
    (if s < 57 then (if s < 54 then (if s < 53 then 72 else (if c < 14 then 72 else (if c < 20 then (if c < 17
    then 53 else 72) else (if c < 24 then (if c < 23 then 53 else 36) else (if c < 25 then 37 else (if c < 27
    then 72 else (if c < 28 then 36 else 72))))))) else (if s < 55 then (if c < 14 then (if c < 4 then (if c <
    2 then 42 else (if c < 3 then 59 else 44)) else 42) else (if c < 23 then (if c < 16 then 60 else 42) else
    (if c < 26 then (if c < 24 then 61 else (if c < 25 then 62 else 63)) else (if c < 27 then 42 else (if c <
    28 then 61 else 42))))) else (if s < 56 then (if c < 14 then (if c < 4 then (if c < 2 then 42 else (if c <
    3 then 59 else 44)) else 42) else (if c < 23 then (if c < 17 then 64 else 42) else (if c < 25 then (if c <
    24 then 61 else 62) else (if c < 27 then 42 else (if c < 28 then 61 else 42))))) else (if c < 14 then 72
    else (if c < 17 then 57 else 72))))) else (if s < 60 then (if s < 58 then (if c < 14 then 72 else (if c <
    22 then (if c < 17 then 57 else 72) else (if c < 24 then 49 else (if c < 27 then 72 else (if c < 28 then 49
    else 72))))) else (if s < 59 then 72 else (if c < 6 then (if c < 3 then (if c < 2 then 42 else 59) else (if
    c < 4 then 44 else (if c < 5 then 42 else 65))) else 42))) else (if s < 61 then (if c < 14 then (if c < 4
    then (if c < 2 then 42 else (if c < 3 then 59 else 44)) else 42) else (if c < 23 then (if c < 16 then 60
    else 42) else (if c < 25 then (if c < 24 then 61 else 62) else (if c < 27 then 42 else (if c < 28 then 61
    else 42))))) else (if s < 62 then (if c < 4 then (if c < 2 then 42 else (if c < 3 then 59 else 44)) else
    (if c < 24 then 42 else (if c < 25 then 66 else 42))) else (if c < 23 then (if c < 4 then (if c < 2 then 42
    else (if c < 3 then 59 else 44)) else 42) else (if c < 27 then (if c < 24 then 66 else 42) else (if c < 28
    then 66 else 42)))))))) else (if s < 74 then (if s < 68 then (if s < 65 then (if s < 64 then (if c < 14
    then (if c < 4 then (if c < 3 then 42 else 44) else 42) else (if c < 20 then (if c < 17 then 67 else 42)
    else (if c < 23 then 67 else 42))) else (if c < 14 then (if c < 4 then (if c < 2 then 42 else (if c < 3
    then 59 else 44)) else 42) else (if c < 23 then (if c < 17 then 64 else 42) else (if c < 25 then (if c < 24
    then 61 else 62) else (if c < 27 then 42 else (if c < 28 then 61 else 42)))))) else (if s < 66 then (if c <
    6 then (if c < 3 then 68 else (if c < 4 then 44 else (if c < 5 then 68 else 42))) else 68) else (if s < 67
    then (if c < 4 then (if c < 2 then 42 else (if c < 3 then 59 else 44)) else 42) else (if c < 14 then (if c
    < 4 then (if c < 2 then 42 else (if c < 3 then 59 else 44)) else 42) else (if c < 20 then (if c < 17 then
    67 else 42) else (if c < 24 then (if c < 23 then 67 else 61) else (if c < 25 then 62 else (if c < 27 then
    42 else (if c < 28 then 61 else 42))))))))) else (if s < 71 then (if s < 69 then (if c < 6 then (if c < 3
    then 68 else (if c < 4 then 44 else (if c < 5 then 68 else 69))) else 68) else (if c < 4 then (if c < 3
    then 70 else 71) else 70)) else (if s < 73 then 72 else (if c < 9 then 22 else 72)))) else (if s < 79 then
    (if s < 76 then (if s < 75 then (if c < 9 then (if c < 4 then (if c < 3 then 72 else 25) else (if c < 6
    then 72 else 25)) else 72) else (if c < 9 then 27 else 72)) else (if s < 77 then (if c < 9 then 42 else 72)
    else (if s < 78 then (if c < 9 then (if c < 3 then (if c < 2 then 45 else 72) else 45) else 72) else (if c
    < 9 then (if c < 3 then (if c < 2 then 46 else 72) else 46) else 72)))) else (if s < 82 then (if s < 80
    then (if c < 9 then (if c < 5 then 72 else (if c < 7 then 34 else (if c < 8 then 72 else 34))) else 72)
    else (if s < 81 then (if c < 7 then (if c < 4 then 72 else (if c < 5 then 51 else (if c < 6 then 72 else
    51))) else 72) else (if c < 9 then (if c < 6 then 72 else 53) else 72))) else (if s < 83 then (if c < 7
    then (if c < 4 then 72 else (if c < 5 then 57 else (if c < 6 then 72 else 57))) else 72) else (if s < 84
    then (if c < 9 then 68 else 72) else (if c < 9 then 70 else 72)))))))
  }

  /** A transition is stored for the state, or it is that of the state it defaults to. */
  predicate GoFits(s: nat, c: nat)
    requires s < 85 && s != 3 && s != 72 && 0 < c < 29
  {
    && Base(s) + c < 295 && 0 < Def(s) < 85 && 0 < Meta(c) < 29
    && Go(s, c) ==
       if Chk(Base(s) + c) == s then Nxt(Base(s) + c)
       else if Def(s) == 72 then 72
       else Go(Def(s), if Def(s) < 73 then c else Meta(c))
  }

  lemma Goes0()
    ensures forall s: nat, c: nat :: 1 <= s < 12 && s != 3 && s != 72 && 0 < c < 29 ==> GoFits(s, c)
  {
  }

  lemma Goes1()
    ensures forall s: nat, c: nat :: 12 <= s < 16 && s != 3 && s != 72 && 0 < c < 29 ==> GoFits(s, c)
  {
  }

  lemma Goes2()
    ensures forall s: nat, c: nat :: 16 <= s < 24 && s != 3 && s != 72 && 0 < c < 29 ==> GoFits(s, c)
  {
  }

  lemma Goes3()
    ensures forall s: nat, c: nat :: 24 <= s < 34 && s != 3 && s != 72 && 0 < c < 29 ==> GoFits(s, c)
  {
  }

  lemma Goes4()
    ensures forall s: nat, c: nat :: 34 <= s < 40 && s != 3 && s != 72 && 0 < c < 29 ==> GoFits(s, c)
  {
  }

  lemma Goes5()
    ensures forall s: nat, c: nat :: 40 <= s < 46 && s != 3 && s != 72 && 0 < c < 29 ==> GoFits(s, c)
  {
  }

  lemma Goes6()
    ensures forall s: nat, c: nat :: 46 <= s < 54 && s != 3 && s != 72 && 0 < c < 29 ==> GoFits(s, c)
  {
  }

  lemma Goes7()
    ensures forall s: nat, c: nat :: 54 <= s < 60 && s != 3 && s != 72 && 0 < c < 29 ==> GoFits(s, c)
  {
  }

  lemma Goes8()
    ensures forall s: nat, c: nat :: 60 <= s < 66 && s != 3 && s != 72 && 0 < c < 29 ==> GoFits(s, c)
  {
  }

  lemma Goes9()
    ensures forall s: nat, c: nat :: 66 <= s < 73 && s != 3 && s != 72 && 0 < c < 29 ==> GoFits(s, c)
  {
  }

  lemma Goes10()
    ensures forall s: nat, c: nat :: 73 <= s < 85 && s != 3 && s != 72 && 0 < c < 29 ==> GoFits(s, c)
  {
  }

  /** The lookup in the compressed tables, through any chain of default states, is this automaton. */
  lemma {:induction false} LookupGoes(s: nat, c: nat, fuel: nat)
    requires 0 < s < 85 && s != 3 && s != 72 && 0 < c < 29 && fuel > Depth(s)
    ensures Lookup(Genksyms(), s, c, fuel) == Some(Go(s, c))
    decreases fuel
  {
    hide Accept, Ec, Base, Def, Nxt, Chk, Meta, Depth, Go;
    TableFacts();
    Goes0(); Goes1(); Goes2(); Goes3(); Goes4(); Goes5(); Goes6(); Goes7(); Goes8(); Goes9(); Goes10();
    assert GoFits(s, c);
    if Chk(Base(s) + c) != s && Def(s) != 72 {
      LookupGoes(Def(s), if Def(s) < 73 then c else Meta(c), fuel - 1);
    }
    LookupJams(if Def(s) < 73 then c else Meta(c), fuel - 1);
  }

  // ----- How far each state has come in each rule -----

  /** The phase of each rule in a state of the automaton. */
  function StatePhase(s: nat, rule: nat): Phase
    requires s < 73
  {
    if s < 36 then (if s < 18 then (if s < 9 then (if s < 4 then (if s < 2 then (if s < 1 then Dead else (if
    rule <= 2 then Dead else Fresh)) else (if s < 3 then Fresh else Dead)) else (if s < 6 then (if s < 5 then
    (if rule <= 11 then Dead else Done) else (if rule <= 4 then (if rule <= 3 then Dead else Inside) else (if
    rule <= 11 then Dead else Done))) else (if s < 7 then (if rule <= 3 then (if rule <= 2 then Dead else Done)
    else Dead) else (if s < 8 then (if rule <= 5 then (if rule <= 4 then Dead else Body) else (if rule <= 11
    then Dead else Done)) else (if rule <= 6 then Dead else (if rule <= 7 then Inside else (if rule <= 11 then
    Dead else Done))))))) else (if s < 13 then (if s < 11 then (if s < 10 then (if rule <= 7 then Dead else (if
    rule <= 8 then Operator(61) else (if rule <= 11 then Dead else Done))) else (if rule <= 7 then Dead else
    (if rule <= 8 then Operator(38) else (if rule <= 11 then Dead else Done)))) else (if s < 12 then (if rule
    <= 6 then (if rule <= 5 then Dead else Body) else (if rule <= 11 then Dead else Done)) else (if rule <= 7
    then Dead else (if rule <= 8 then Operator(62) else (if rule <= 11 then Dead else Done))))) else (if s < 15
    then (if s < 14 then (if rule <= 9 then Dead else (if rule <= 10 then Point else (if rule <= 11 then
    Dots(1) else Done))) else (if rule <= 8 then Dead else (if rule <= 10 then (if rule <= 9 then Number(Zero)
    else Digits) else (if rule <= 11 then Dead else Done)))) else (if s < 16 then (if rule <= 8 then Dead else
    (if rule <= 10 then (if rule <= 9 then Number(Decimal) else Digits) else (if rule <= 11 then Dead else
    Done))) else (if s < 17 then (if rule <= 7 then Dead else (if rule <= 8 then Operator(60) else (if rule <=
    11 then Dead else Done))) else (if rule <= 7 then Dead else (if rule <= 8 then Operator(62) else (if rule
    <= 11 then Dead else Done)))))))) else (if s < 27 then (if s < 22 then (if s < 20 then (if s < 19 then (if
    rule <= 6 then (if rule <= 4 then Dead else Prefix) else (if rule <= 7 then Inside else (if rule <= 11 then
    Dead else Done))) else (if rule <= 7 then Dead else (if rule <= 8 then Operator(124) else (if rule <= 11
    then Dead else Done)))) else (if s < 21 then (if rule <= 2 then Sign else (if rule <= 11 then Dead else
    Done)) else (if rule <= 4 then (if rule <= 3 then Dead else Inside) else Dead))) else (if s < 24 then (if s
    < 23 then (if rule <= 5 then (if rule <= 4 then Dead else Body) else Dead) else (if rule <= 5 then (if rule
    <= 4 then Dead else Done) else Dead)) else (if s < 25 then (if rule <= 5 then (if rule <= 4 then Dead else
    Escape) else Dead) else (if s < 26 then (if rule <= 6 then Dead else (if rule <= 7 then Inside else Dead))
    else (if rule <= 7 then Dead else (if rule <= 8 then Done else Dead)))))) else (if s < 31 then (if s < 29
    then (if s < 28 then (if rule <= 6 then (if rule <= 5 then Dead else Body) else Dead) else (if rule <= 6
    then (if rule <= 5 then Dead else Done) else Dead)) else (if s < 30 then (if rule <= 6 then (if rule <= 5
    then Dead else Escape) else Dead) else (if rule <= 10 then Dead else (if rule <= 11 then Dots(2) else
    Dead)))) else (if s < 33 then (if rule <= 9 then Dead else (if rule <= 10 then Fraction else Dead)) else
    (if s < 34 then (if rule <= 8 then Dead else (if rule <= 10 then (if rule <= 9 then Number(Octal) else
    Digits) else Dead)) else (if s < 35 then (if rule <= 9 then Dead else (if rule <= 10 then Digits else
    Dead)) else (if rule <= 9 then Dead else (if rule <= 10 then ExponentStart else Dead)))))))) else (if s <
    54 then (if s < 45 then (if s < 40 then (if s < 38 then (if s < 37 then (if rule <= 8 then Dead else (if
    rule <= 9 then Number(BehindL) else Dead)) else (if rule <= 8 then Dead else (if rule <= 9 then
    Number(BehindU) else Dead))) else (if s < 39 then (if rule <= 8 then Dead else (if rule <= 9 then
    Number(HexStart) else Dead)) else (if rule <= 8 then Dead else (if rule <= 10 then (if rule <= 9 then
    Number(Decimal) else Digits) else Dead)))) else (if s < 42 then (if s < 41 then (if rule <= 5 then (if rule
    <= 4 then Dead else Body) else Dead) else (if rule <= 6 then (if rule <= 5 then Dead else Body) else Dead))
    else (if s < 43 then (if rule <= 2 then (if rule <= 1 then Dead else Sign) else Dead) else (if s < 44 then
    (if rule <= 2 then (if rule <= 1 then SignGap else Sign) else Dead) else (if rule <= 2 then (if rule <= 1
    then Dead else Done) else Dead))))) else (if s < 49 then (if s < 47 then (if s < 46 then (if rule <= 5 then
    (if rule <= 4 then Dead else Body) else Dead) else (if rule <= 6 then (if rule <= 5 then Dead else Body)
    else Dead)) else (if s < 48 then (if rule <= 10 then Dead else (if rule <= 11 then Done else Dead)) else
    (if rule <= 9 then Dead else (if rule <= 10 then ExponentStart else Dead)))) else (if s < 51 then (if s <
    50 then (if rule <= 9 then Dead else (if rule <= 10 then Done else Dead)) else (if rule <= 9 then Dead else
    (if rule <= 10 then ExponentSign else Dead))) else (if s < 52 then (if rule <= 9 then Dead else (if rule <=
    10 then Power else Dead)) else (if s < 53 then (if rule <= 8 then Dead else (if rule <= 9 then
    Number(BehindBoth) else Dead)) else (if rule <= 8 then Dead else (if rule <= 9 then Number(Hex) else
    Dead))))))) else (if s < 63 then (if s < 58 then (if s < 56 then (if s < 55 then (if rule <= 2 then (if
    rule <= 1 then MarkerNumber(Zero) else Sign) else Dead) else (if rule <= 2 then (if rule <= 1 then
    MarkerNumber(Decimal) else Sign) else Dead)) else (if s < 57 then (if rule <= 9 then Dead else (if rule <=
    10 then ExponentSign else Dead)) else (if rule <= 9 then Dead else (if rule <= 10 then Power else Dead))))
    else (if s < 60 then (if s < 59 then (if rule <= 9 then Dead else (if rule <= 10 then Done else Dead)) else
    (if rule <= 2 then (if rule <= 1 then NameGap else Sign) else Dead)) else (if s < 61 then (if rule <= 2
    then (if rule <= 1 then MarkerNumber(Octal) else Sign) else Dead) else (if s < 62 then (if rule <= 2 then
    (if rule <= 1 then MarkerNumber(BehindL) else Sign) else Dead) else (if rule <= 2 then (if rule <= 1 then
    MarkerNumber(BehindU) else Sign) else Dead))))) else (if s < 68 then (if s < 65 then (if s < 64 then (if
    rule <= 2 then (if rule <= 1 then MarkerNumber(HexStart) else Sign) else Dead) else (if rule <= 2 then (if
    rule <= 1 then MarkerNumber(Decimal) else Sign) else Dead)) else (if s < 66 then (if rule <= 2 then (if
    rule <= 1 then NameStart else Sign) else Dead) else (if s < 67 then (if rule <= 2 then (if rule <= 1 then
    MarkerNumber(BehindBoth) else Sign) else Dead) else (if rule <= 2 then (if rule <= 1 then MarkerNumber(Hex)
    else Sign) else Dead)))) else (if s < 69 then (if rule <= 2 then (if rule <= 1 then Name else Sign) else
    Dead) else (if s < 71 then (if rule <= 2 then (if rule <= 1 then Tail else Sign) else Dead) else (if s < 72
    then (if rule <= 2 then Done else Dead) else Dead))))))
  }

  /** What the classes of characters are. */
  lemma ClassFacts(b: Byte)
    ensures var c := if b == 0 then 1 else Ec(b);
            && 0 < c < 29
            && (c == 2 <==> Space(b)) && (c == 4 <==> 11 <= b <= 13) && (c == 3 <==> b == NEWLINE)
            && (c == 5 <==> b == DOUBLE_QUOTE) && (c == 6 <==> b == NUMBER_SIGN) && (c == 10 <==> b == SINGLE_QUOTE)
            && (c == 11 <==> b == PLUS) && (c == 12 <==> b == MINUS) && (c == 13 <==> b == POINT)
            && (c == 14 <==> b == Lexemes.ZERO) && (c == 15 <==> OctalDigit(b) && b != Lexemes.ZERO)
            && (c == 16 <==> Digit(b) && !OctalDigit(b)) && (c == 26 <==> b == BACKSLASH)
            && (c == 9 <==> b == '&' as int) && (c == 17 <==> b == '<' as int) && (c == 18 <==> b == '=' as int)
            && (c == 19 <==> b == '>' as int) && (c == 28 <==> b == '|' as int)
            && (c == 8 <==> b as char in {'~', '%', '^', '*', '/'})
            && (c == 20 || c == 21 || c == 22 <==> HexDigit(b) && !Digit(b))
            && (c == 21 <==> Is(b, 'e')) && (c == 22 <==> Is(b, 'f')) && (c == 24 <==> Is(b, 'u')) &&
                (c == 25 <==> Is(b, 'x'))
            && (c == 23 <==> b == 'L' as int) && (c == 27 <==> b == 'l' as int)
            && (c == 7 || 20 <= c <= 25 || c == 27 <==> Letter(b))
  {
  }

  /** The phases behind one more character are those of the next state. */
  predicate Fits(s: nat, b: Byte, rule: nat)
    requires s < 73
  {
    var c := if b == 0 then 1 else Ec(b);
    Go(s, c) < 73 && StatePhase(Go(s, c), rule) == Next(rule, StatePhase(s, rule), b)
  }

  lemma {:induction false} Fits0(s: nat, b: Byte, rule: nat)
    requires 1 <= s < 4 && s != 3 && s != 72 && 0 < rule <= 12
    ensures Fits(s, b, rule)
  {
    hide Ec;
    ClassFacts(b);
  }

  lemma {:induction false} Fits1(s: nat, b: Byte, rule: nat)
    requires 4 <= s < 8 && s != 3 && s != 72 && 0 < rule <= 12
    ensures Fits(s, b, rule)
  {
    hide Ec;
    ClassFacts(b);
  }

  lemma {:induction false} Fits2(s: nat, b: Byte, rule: nat)
    requires 8 <= s < 12 && s != 3 && s != 72 && 0 < rule <= 12
    ensures Fits(s, b, rule)
  {
    hide Ec;
    ClassFacts(b);
  }

  lemma {:induction false} Fits3(s: nat, b: Byte, rule: nat)
    requires 12 <= s < 14 && s != 3 && s != 72 && 0 < rule <= 12
    ensures Fits(s, b, rule)
  {
    hide Ec;
    ClassFacts(b);
  }

  lemma {:induction false} Fits4(s: nat, b: Byte, rule: nat)
    requires 14 <= s < 16 && s != 3 && s != 72 && 0 < rule <= 12
    ensures Fits(s, b, rule)
  {
    hide Ec;
    ClassFacts(b);
  }

  lemma {:induction false} Fits5(s: nat, b: Byte, rule: nat)
    requires 16 <= s < 18 && s != 3 && s != 72 && 0 < rule <= 12
    ensures Fits(s, b, rule)
  {
    hide Ec;
    ClassFacts(b);
  }

  lemma {:induction false} Fits6(s: nat, b: Byte, rule: nat)
    requires 18 <= s < 20 && s != 3 && s != 72 && 0 < rule <= 12
    ensures Fits(s, b, rule)
  {
    hide Ec;
    ClassFacts(b);
  }

  lemma {:induction false} Fits7(s: nat, b: Byte, rule: nat)
    requires 20 <= s < 24 && s != 3 && s != 72 && 0 < rule <= 12
    ensures Fits(s, b, rule)
  {
    hide Ec;
    ClassFacts(b);
  }

  lemma {:induction false} Fits8(s: nat, b: Byte, rule: nat)
    requires 24 <= s < 30 && s != 3 && s != 72 && 0 < rule <= 12
    ensures Fits(s, b, rule)
  {
    hide Ec;
    ClassFacts(b);
  }

  lemma {:induction false} Fits9(s: nat, b: Byte, rule: nat)
    requires 30 <= s < 33 && s != 3 && s != 72 && 0 < rule <= 12
    ensures Fits(s, b, rule)
  {
    hide Ec;
    ClassFacts(b);
  }

  lemma {:induction false} Fits10(s: nat, b: Byte, rule: nat)
    requires 33 <= s < 36 && s != 3 && s != 72 && 0 < rule <= 12
    ensures Fits(s, b, rule)
  {
    hide Ec;
    ClassFacts(b);
  }

  lemma {:induction false} Fits11(s: nat, b: Byte, rule: nat)
    requires 36 <= s < 40 && s != 3 && s != 72 && 0 < rule <= 12
    ensures Fits(s, b, rule)
  {
    hide Ec;
    ClassFacts(b);
  }

  lemma {:induction false} Fits12(s: nat, b: Byte, rule: nat)
    requires 40 <= s < 46 && s != 3 && s != 72 && 0 < rule <= 12
    ensures Fits(s, b, rule)
  {
    hide Ec;
    ClassFacts(b);
  }

  lemma {:induction false} Fits13(s: nat, b: Byte, rule: nat)
    requires 46 <= s < 50 && s != 3 && s != 72 && 0 < rule <= 12
    ensures Fits(s, b, rule)
  {
    hide Ec;
    ClassFacts(b);
  }

  lemma {:induction false} Fits14(s: nat, b: Byte, rule: nat)
    requires 50 <= s < 54 && s != 3 && s != 72 && 0 < rule <= 12
    ensures Fits(s, b, rule)
  {
    hide Ec;
    ClassFacts(b);
  }

  lemma {:induction false} Fits15(s: nat, b: Byte, rule: nat)
    requires 54 <= s < 57 && s != 3 && s != 72 && 0 < rule <= 12
    ensures Fits(s, b, rule)
  {
    hide Ec;
    ClassFacts(b);
  }

  lemma {:induction false} Fits16(s: nat, b: Byte, rule: nat)
    requires 57 <= s < 60 && s != 3 && s != 72 && 0 < rule <= 12
    ensures Fits(s, b, rule)
  {
    hide Ec;
    ClassFacts(b);
  }

  lemma {:induction false} Fits17(s: nat, b: Byte, rule: nat)
    requires 60 <= s < 62 && s != 3 && s != 72 && 0 < rule <= 12
    ensures Fits(s, b, rule)
  {
    hide Ec;
    ClassFacts(b);
  }

  lemma {:induction false} Fits18(s: nat, b: Byte, rule: nat)
    requires 62 <= s < 64 && s != 3 && s != 72 && 0 < rule <= 12
    ensures Fits(s, b, rule)
  {
    hide Ec;
    ClassFacts(b);
  }

  lemma {:induction false} Fits19(s: nat, b: Byte, rule: nat)
    requires 64 <= s < 66 && s != 3 && s != 72 && 0 < rule <= 12
    ensures Fits(s, b, rule)
  {
    hide Ec;
    ClassFacts(b);
  }

  lemma {:induction false} Fits20(s: nat, b: Byte, rule: nat)
    requires 66 <= s < 68 && s != 3 && s != 72 && 0 < rule <= 12
    ensures Fits(s, b, rule)
  {
    hide Ec;
    ClassFacts(b);
  }

  lemma {:induction false} Fits21(s: nat, b: Byte, rule: nat)
    requires 68 <= s < 70 && s != 3 && s != 72 && 0 < rule <= 12
    ensures Fits(s, b, rule)
  {
    hide Ec;
    ClassFacts(b);
  }

  lemma {:induction false} Fits22(s: nat, b: Byte, rule: nat)
    requires 70 <= s < 73 && s != 3 && s != 72 && 0 < rule <= 12
    ensures Fits(s, b, rule)
  {
    hide Ec;
    ClassFacts(b);
  }

  /** A state accepts by the first rule that matches in it. */
  lemma AcceptFits()
    ensures forall s: nat, rule: nat :: 0 < s < 73 && s != 3 && 0 < rule <= 12 && Matched(StatePhase(s, rule)) ==>
      0 < Accept(s) <= rule
    ensures forall s: nat :: 0 < s < 73 && s != 3 && Accept(s) != 0 ==>
      Accept(s) <= 12 && Matched(StatePhase(s, Accept(s)))
    ensures forall rule: nat :: StatePhase(72, rule) == Dead
    ensures forall bol: bool, rule: nat :: 0 < rule <= 12 ==>
        StatePhase(Start(bol), rule) == LexemePhases.First(rule, bol)
  {
  }

  lemma DeadForever(rule: nat, b: Byte)
    ensures Next(rule, Dead, b) == Dead
  {
  }

  lemma {:induction false} Fitting(s: nat, b: Byte, rule: nat)
    requires 0 < s < 72 && s != 3 && 0 < rule <= 12
    ensures Fits(s, b, rule)
  {
    hide Fits;
    if s < 4 {
      Fits0(s, b, rule);
    } else if s < 8 {
      Fits1(s, b, rule);
    } else if s < 12 {
      Fits2(s, b, rule);
    } else if s < 14 {
      Fits3(s, b, rule);
    } else if s < 16 {
      Fits4(s, b, rule);
    } else if s < 18 {
      Fits5(s, b, rule);
    } else if s < 20 {
      Fits6(s, b, rule);
    } else if s < 24 {
      Fits7(s, b, rule);
    } else if s < 30 {
      Fits8(s, b, rule);
    } else if s < 33 {
      Fits9(s, b, rule);
    } else if s < 36 {
      Fits10(s, b, rule);
    } else if s < 40 {
      Fits11(s, b, rule);
    } else if s < 46 {
      Fits12(s, b, rule);
    } else if s < 50 {
      Fits13(s, b, rule);
    } else if s < 54 {
      Fits14(s, b, rule);
    } else if s < 57 {
      Fits15(s, b, rule);
    } else if s < 60 {
      Fits16(s, b, rule);
    } else if s < 62 {
      Fits17(s, b, rule);
    } else if s < 64 {
      Fits18(s, b, rule);
    } else if s < 66 {
      Fits19(s, b, rule);
    } else if s < 68 {
      Fits20(s, b, rule);
    } else if s < 70 {
      Fits21(s, b, rule);
    } else {
      Fits22(s, b, rule);
    }
  }

  /** The state behind k characters knows how far the text has come in each rule. */
  lemma {:induction false} StateKnows(bol: bool, input: seq<Byte>, k: nat, rule: nat)
    requires k <= |input| && 0 < rule <= 12
    ensures StatePhase(StateAt(bol, input, k), rule) == PhaseOf(rule, bol, input[..k])
  {
    hide StateAt, StatePhase, Go, Accept, Ec, Base, Def, Nxt, Chk, Meta, Depth, PhaseOf, Next, Lookup;
    AcceptFits();
    if k == 0 {
      PhaseStart(rule, bol);
      if input != [] {
        NextState(bol, input, 1);
      } else {
        StartState(bol);
      }
    } else {
      var s, b := StateAt(bol, input, k - 1), input[k - 1];
      StateKnows(bol, input, k - 1, rule);
      NextState(bol, input, k);
      PhaseStep(rule, bol, input[..k]);
      assert input[..k][..k - 1] == input[..k - 1];
      if s == 72 {
        DeadForever(rule, b);
      } else {
        DepthFacts();
        ClassIs(input, k - 1);
        LookupGoes(s, ClassAt(input, k - 1), CHAIN);
        Fitting(s, b, rule);
      }
    }
  }

  lemma StartState(bol: bool)
    ensures StateAt(bol, [], 0) == Start(bol)
  {
  }

  lemma ClassIs(input: seq<Byte>, k: nat)
    requires k < |input|
    ensures ClassAt(input, k) == if input[k] == 0 then 1 else Ec(input[k])
  {
    hide Ec;
  }

  // ----- What is matched -----

  /** The first rule, from this one on, that matches the text; zero if none does. */
  function FirstFrom(rule: nat, bol: bool, w: seq<Byte>): nat
    decreases 13 - rule
  {
    if rule > 12 then 0 else if Language(rule, bol, w) then rule else FirstFrom(rule + 1, bol, w)
  }

  function FirstRule(bol: bool, w: seq<Byte>): nat {
    FirstFrom(1, bol, w)
  }

  lemma {:induction false} FirstFromMeans(rule: nat, bol: bool, w: seq<Byte>, r: nat)
    requires 0 < rule <= 13
    requires forall l :: rule <= l <= 12 && Language(l, bol, w) ==> 0 < r <= l
    requires r != 0 ==> rule <= r <= 12 && Language(r, bol, w)
    ensures FirstFrom(rule, bol, w) == r
    decreases 13 - rule
  {
    hide Language;
    if rule <= 12 && !Language(rule, bol, w) {
      FirstFromMeans(rule + 1, bol, w, r);
    }
  }

  /** Every text is matched by the first rule that describes it, at the start of a line or not. */
  lemma {:induction false} RuleOfText(bol: bool, input: seq<Byte>, k: nat)
    requires 0 < k <= |input|
    ensures RuleOf(bol, input, k) == FirstRule(bol, input[..k])
  {
    hide StateAt, StatePhase, Accept, PhaseOf, Language, FirstFrom, Matched;
    AcceptFits();
    var s, w := StateAt(bol, input, k), input[..k];
    forall rule: nat | 0 < rule <= 12 ensures Matched(StatePhase(s, rule)) <==> Language(rule, bol, w) {
      StateKnows(bol, input, k, rule);
      PhasesDecide(rule, bol, w);
    }
    FirstFromMeans(1, bol, w, Accept(s));
  }

  /** The scanner takes the longest text that is a token, and the first rule that describes it. */
  lemma {:induction false} MatchesExactly(bol: bool, input: seq<Byte>, n: nat, rule: nat)
    ensures Matches(bol, input, n, rule) <==>
      && 0 < n <= |input| && FirstRule(bol, input[..n]) == rule != 0
      && forall k :: n < k <= |input| ==> FirstRule(bol, input[..k]) == 0
  {
    hide Matches, RuleOf, FirstRule;
    MatchesMeans(bol, input, n, rule);
    forall k | 0 < k <= |input| ensures RuleOf(bol, input, k) == FirstRule(bol, input[..k]) {
      RuleOfText(bol, input, k);
    }
  }

  // ----- Names -----

  predicate NameByte(b: Byte) {
    Letter(b) || Digit(b)
  }

  /** What starts with a letter is a name, or a string or character constant behind an L. */
  lemma LetterFirst(bol: bool, w: seq<Byte>, rule: nat)
    requires w != [] && Letter(w[0]) && 0 < rule < 12 && rule != 7 && Language(rule, bol, w)
    ensures (rule == 5 || rule == 6) && |w| > 1 && w[0] == 'L' as int && (w[1] == DOUBLE_QUOTE || w[1] == SINGLE_QUOTE)
  {
    hide IsBody, AreSpaces, IsInteger, IsExponent, IsMarker, IsReal;
    assert w[0] in w;
    if rule == 1 {
      MarkerStarts(w);
    } else if rule == 9 {
      NumberStarts(w);
    } else if rule == 10 {
      RealStarts(w);
    }
  }

  lemma {:induction false} MarkerStarts(w: seq<Byte>)
    requires IsMarker(w)
    ensures w[0] == NUMBER_SIGN
  {
    hide IsInteger, AreSpaces, IsFileName;
    var i: nat :| i < |w| && IsMarkerHead(w[..i]) && NEWLINE !in w[i..|w| - 1];
    var v := w[..i];
    var j: nat :| 0 < j < |v| && IsNumberGap(v[..j]) && IsFileName(v[j..]);
    var u := v[..j];
    var k: nat :| 0 < k < |u| && IsLineNumber(u[..k]) && AreSpaces(u[k..]);
    var t := u[..k];
    var l: nat :| 0 < l < |t| && IsSignGap(t[..l]) && IsInteger(t[l..]);
    assert t[..l][0] == t[0] == u[0] == v[0] == w[0];
  }

  lemma NumberStarts(w: seq<Byte>)
    requires IsInteger(w)
    ensures w != [] && Digit(w[0])
  {
  }

  lemma {:induction false} RealStarts(w: seq<Byte>)
    requires IsReal(w)
    ensures w != [] && (Digit(w[0]) || w[0] == POINT)
  {
    hide IsExponent;
    var v := if IsFraction(w) || IsPower(w) then w else w[..|w| - 1];
    if IsPower(v) {
      var i: nat :| 0 < i < |v| && (AreDigits(v[..i]) || IsFraction(v[..i])) && IsExponent(v[i..]);
      MantissaStarts(v[..i]);
    } else {
      MantissaStarts(v);
    }
  }

  lemma MantissaStarts(w: seq<Byte>)
    requires AreDigits(w) || IsFraction(w)
    ensures w != [] && (Digit(w[0]) || w[0] == POINT)
  {
    if IsFraction(w) {
      var i: nat :| i < |w| && PointAt(w, i);
    }
  }

  /** A name is matched as a whole, whatever follows that is not part of it; only an L before a quote is
      something else. */
  lemma {:induction false} NameMatched(bol: bool, word: seq<Byte>, rest: seq<Byte>)
    requires word != [] && Letter(word[0]) && forall b :: b in word ==> NameByte(b)
    requires rest == [] || !NameByte(rest[0])
    requires word == ['L' as int] && rest != [] ==> rest[0] != DOUBLE_QUOTE && rest[0] != SINGLE_QUOTE
    ensures Matches(bol, word + rest, |word|, IDENT_RULE)
  {
    hide Matches, Language, FirstRule;
    var input := word + rest;
    assert input[..|word|] == word;
    NameFirst(bol, word);
    forall k | |word| < k <= |input| ensures FirstRule(bol, input[..k]) == 0 {
      LongerIsNothing(bol, word, rest, k);
    }
    MatchesExactly(bol, input, |word|, IDENT_RULE);
  }

  lemma {:induction false} NameFirst(bol: bool, word: seq<Byte>)
    requires word != [] && Letter(word[0]) && forall b :: b in word ==> NameByte(b)
    ensures FirstRule(bol, word) == IDENT_RULE
  {
    hide FirstFrom, Language;
    NameIsName(bol, word);
    assert |word| > 1 ==> word[1] in word;
    forall l | 1 <= l <= 12 && Language(l, bol, word) ensures IDENT_RULE <= l {
      if l < 7 {
        LetterFirst(bol, word, l);
      }
    }
    FirstFromMeans(1, bol, word, IDENT_RULE);
  }

  lemma NameIsName(bol: bool, w: seq<Byte>)
    ensures Language(IDENT_RULE, bol, w) <==> w != [] && Letter(w[0]) && forall b :: b in w ==> NameByte(b)
    ensures Language(12, bol, w) ==> |w| == 1
  {
  }

  lemma {:induction false} LongerIsNothing(bol: bool, word: seq<Byte>, rest: seq<Byte>, k: nat)
    requires word != [] && Letter(word[0]) && |word| < k <= |word + rest| && !NameByte(rest[0])
    requires forall b :: b in word ==> NameByte(b)
    requires word == ['L' as int] ==> rest[0] != DOUBLE_QUOTE && rest[0] != SINGLE_QUOTE
    ensures FirstRule(bol, (word + rest)[..k]) == 0
  {
    hide FirstFrom, Language;
    var w := (word + rest)[..k];
    assert w[|word|] == rest[0] && rest[0] in w && w[0] == word[0];
    NameIsName(bol, w);
    assert |word| > 1 ==> w[1] == word[1] && word[1] in word;
    assert |word| == 1 ==> w[1] == rest[0] && (word[0] == 'L' as int ==> word == ['L' as int]);
    forall l | 1 <= l <= 12 && Language(l, bol, w) ensures false {
      if l < 12 && l != 7 {
        LetterFirst(bol, w, l);
      }
    }
    FirstFromMeans(1, bol, w, 0);
  }

  // ----- What the first stage delivers -----

  function Told(code: int, text: seq<Byte>): FirstStage.Token {
    FirstStage.Token.Token(code, seq(|text|, i requires 0 <= i < |text| => text[i] as char))
  }

  lemma ToldChars(code: int, text: seq<Byte>)
    ensures Told(code, text) == FirstStage.Token.Token(code, Chars(text))
  {
  }

  /** No longer text at the start of the input is a token. */
  ghost predicate NothingLonger(bol: bool, text: seq<Byte>, rest: seq<Byte>) {
    forall k :: |text| < k <= |text + rest| ==> FirstRule(bol, (text + rest)[..k]) == 0
  }

  /** The token of a text that is the longest one: what it is decides the code, and white space,
      newlines and lines that are no markers are skipped.  A NUL by itself ends everything. */
  lemma {:induction false} StreamTells(bol: bool, text: seq<Byte>, rest: seq<Byte>)
    requires text != [] && NothingLonger(bol, text, rest) && FirstRule(bol, text) != 0
    ensures Stream(bol, text + rest) ==
      var behind := Stream(text[|text| - 1] == NEWLINE, rest);
      if bol && IsMarker(text) then [Told(299, text)] + behind
      else if (bol && IsSignLine(text)) || text == [NEWLINE] || AreWhite(text) then behind
      else if IsQuoted(DOUBLE_QUOTE, text) then [Told(296, text)] + behind
      else if IsQuoted(SINGLE_QUOTE, text) then [Told(291, text)] + behind
      else if IsName(text) then [Told(293, text)] + behind
      else if IsOperator(text) then [Told(298, text)] + behind
      else if IsInteger(text) then [Told(294, text)] + behind
      else if IsReal(text) then [Told(295, text)] + behind
      else if IsDots(text) then [Told(292, text)] + behind
      else if text == [0] then []
      else [Told(if text[0] < 128 then text[0] as int else text[0] as int - 256, text)] + behind
  {
    hide Matches, Stream, Chars, Told, IsMarker, IsSignLine, AreWhite, IsQuoted, IsName, IsOperator, IsInteger, IsReal,
        IsDots;
    var rule := FirstRule(bol, text);
    assert (text + rest)[..|text|] == text;
    MatchesExactly(bol, text + rest, |text|, rule);
    StreamStep(bol, text, rest, rule);
    FirstRuleTells(bol, text);
    ToldChars(Code(rule, text), text);
  }

  /** The first rule by its meaning. */
  lemma {:induction false} FirstRuleTells(bol: bool, w: seq<Byte>)
    ensures FirstRule(bol, w) ==
      if bol && IsMarker(w) then 1 else if bol && IsSignLine(w) then 2
      else if |w| == 1 && w[0] == NEWLINE then 3 else if AreWhite(w) then 4
      else if IsQuoted(DOUBLE_QUOTE, w) then 5 else if IsQuoted(SINGLE_QUOTE, w) then 6
      else if IsName(w) then 7 else if IsOperator(w) then 8 else if IsInteger(w) then 9
      else if IsReal(w) then 10 else if IsDots(w) then 11 else if |w| == 1 && w[0] != NEWLINE then 12 else 0
  {
    hide IsMarker, IsSignLine, AreWhite, IsQuoted, IsName, IsOperator, IsInteger, IsReal, IsDots;
    assert FirstFrom(11, bol, w) == if Language(11, bol, w) then 11 else if Language(12, bol, w) then 12 else 0;
    assert FirstFrom(9, bol, w) == if Language(9, bol, w) then 9 else if Language(10, bol, w) then 10
        else FirstFrom(11, bol, w);
    assert FirstFrom(7, bol, w) == if Language(7, bol, w) then 7 else if Language(8, bol, w) then 8
        else FirstFrom(9, bol, w);
    assert FirstFrom(5, bol, w) == if Language(5, bol, w) then 5 else if Language(6, bol, w) then 6
        else FirstFrom(7, bol, w);
    assert FirstFrom(3, bol, w) == if Language(3, bol, w) then 3 else if Language(4, bol, w) then 4
        else FirstFrom(5, bol, w);
    assert FirstFrom(1, bol, w) == if Language(1, bol, w) then 1 else if Language(2, bol, w) then 2
        else FirstFrom(3, bol, w);
  }
}
