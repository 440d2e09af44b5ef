/** A sentence of the genksyms grammar that its parser does not accept: a declaration of a variable
    whose name is known as a type, which the tables take for another specifier. */
module ShadowedType {
  import opened GenksymsFollow
  import opened GenksymsGrammar
  import opened GenksymsParser
  import opened LrRuns
  import opened LrTables
  import opened Wrappers

  /** INT_KEYW TYPE '=' EXPRESSION_PHRASE ';' */
  const INPUT: seq<nat> := [15, 42, 51, 35, 45]

  // ----- It is a sentence -----

  /** Tree x derives the tokens y from this symbol. */
  ghost predicate Made(x: Tree, symbol: nat, y: seq<nat>) {
    Parses(ParserTables(), ParserGrammar(), x) && Root(ParserGrammar(), x) == symbol && Yield(x) == y
  }

  lemma {:induction false} Token(tok: nat)
    requires tok < 54
    ensures Made(Leaf(tok), tok, [tok])
  {
  }

  lemma {:induction false} MadeOf(n: nat, kids: seq<Tree>)
    requires ACCEPT < n < 134 && |kids| == R2(n)
    requires forall i :: 0 <= i < R2(n) ==> Made(kids[i], RhsAt(n, i), Yield(kids[i]))
    ensures Made(Node(n, kids), R1(n), YieldAll(kids))
  {
    hide R1, R2, Prhs, Rhs, RhsAt;
    assert Roots(ParserGrammar(), kids) == ParserGrammar().rhs[n];
  }

  lemma {:induction false} MadeOfNone(n: nat)
    requires ACCEPT < n < 134 && R2(n) == 0
    ensures Made(Node(n, []), R1(n), [])
  {
    hide R1, R2, Prhs, Rhs, RhsAt, Made;
    MadeOf(n, []);
  }

  lemma {:induction false} MadeOfOne(n: nat, x: Tree, y: seq<nat>)
    requires ACCEPT < n < 134 && R2(n) == 1 && Made(x, RhsAt(n, 0), y)
    ensures Made(Node(n, [x]), R1(n), y)
  {
    hide R1, R2, Prhs, Rhs, RhsAt;
    MadeOf(n, [x]);
    YieldOne(x);
  }

  lemma {:induction false} MadeOfTwo(n: nat, x: Tree, y: Tree)
    requires ACCEPT < n < 134 && R2(n) == 2
    requires Made(x, RhsAt(n, 0), Yield(x)) && Made(y, RhsAt(n, 1), Yield(y))
    ensures Made(Node(n, [x, y]), R1(n), Yield(x) + Yield(y))
  {
    hide R1, R2, Prhs, Rhs, RhsAt, Made;
    MadeOf(n, [x, y]);
    YieldTwo(x, y);
  }

  lemma {:induction false} YieldTwo(x: Tree, y: Tree)
    ensures YieldAll([x, y]) == Yield(x) + Yield(y)
  {
    assert [x, y][1..] == [y];
    YieldOne(y);
  }

  /** The specifiers. */
  lemma {:induction false} IntMade() returns (x: Tree)
    ensures Made(x, 65, [15])
  {
    hide Made;
    Token(15);
    x := Leaf(15);
    MadeOfOne(48, x, [15]);
    x := Node(48, [x]);
    MadeOfOne(33, x, [15]);
    x := Node(33, [x]);
    MadeOfOne(27, x, [15]);
    x := Node(27, [x]);
    MadeOfOne(24, x, [15]);
    x := Node(24, [x]);
    MadeOfOne(23, x, [15]);
    x := Node(23, [x]);
  }

  /** The declarator. */
  lemma {:induction false} NameMade() returns (x: Tree)
    ensures Made(x, 75, [42])
  {
    hide Made;
    Token(42);
    x := Leaf(42);
    MadeOfOne(69, x, [42]);
    x := Node(69, [x]);
    MadeOfOne(67, x, [42]);
    x := Node(67, [x]);
  }

  /** The initialiser. */
  lemma {:induction false} ValueMade() returns (x: Tree)
    ensures Made(x, 86, [51, 35])
  {
    hide Made;
    Token(51);
    Token(35);
    MadeOfTwo(105, Leaf(51), Leaf(35));
    x := Node(105, [Leaf(51), Leaf(35)]);
    assert [51] + [35] == [51, 35];
    MadeOfOne(104, x, [51, 35]);
    x := Node(104, [x]);
  }

  /** The declarator with its initialiser, as a list. */
  lemma {:induction false} ListMade() returns (x: Tree)
    ensures Made(x, 62, [42, 51, 35])
  {
    hide Made, Yield, YieldAll;
    var name := NameMade();
    var value := ValueMade();
    MadeOfNone(131);
    MadeOfNone(122);
    DeclaratorMade(name, Node(131, []), Node(122, []), value);
    x := Node(21, [name, Node(131, []), Node(122, []), value]);
    MadeOfOne(19, x, [42, 51, 35]);
    x := Node(19, [x]);
    MadeOfOne(18, x, [42, 51, 35]);
    x := Node(18, [x]);
  }

  lemma {:induction false} DeclaratorMade(name: Tree, code: Tree, attributes: Tree, value: Tree)
    requires Made(name, 75, [42]) && Made(code, 101, []) && Made(attributes, 96, []) && Made(value, 86, [51, 35])
    ensures Made(Node(21, [name, code, attributes, value]), 64, [42, 51, 35])
  {
    hide Parses, Root;
    var kids := [name, code, attributes, value];
    assert R2(21) == 4 && RhsAt(21, 0) == 75 && RhsAt(21, 1) == 101 && RhsAt(21, 2) == 96 && RhsAt(21, 3) == 86;
    MadeOf(21, kids);
    YieldTwo(attributes, value);
    assert kids[1..] == [code, attributes, value] && kids[1..][1..] == [attributes, value];
    assert [42] + ([] + ([] + [51, 35])) == [42, 51, 35];
  }

  lemma {:induction false} SimpleMade(specifiers: Tree, list: Tree)
    requires Made(specifiers, 65, [15]) && Made(list, 62, [42, 51, 35])
    ensures Made(Node(16, [specifiers, list, Leaf(45)]), 61, INPUT)
  {
    hide Parses, Root;
    Token(45);
    var kids := [specifiers, list, Leaf(45)];
    assert R2(16) == 3 && RhsAt(16, 0) == 65 && RhsAt(16, 1) == 62 && RhsAt(16, 2) == 45;
    MadeOf(16, kids);
    YieldTwo(list, Leaf(45));
    assert kids[1..] == [list, Leaf(45)] && [15] + ([42, 51, 35] + [45]) == INPUT;
  }

  /** The grammar derives it. */
  lemma {:induction false} InputMade() returns (x: Tree)
    ensures Derives(x, INPUT)
  {
    hide Made, Yield, YieldAll;
    var specifiers := IntMade();
    var list := ListMade();
    SimpleMade(specifiers, list);
    x := Node(16, [specifiers, list, Leaf(45)]);
    MadeOfOne(10, x, INPUT);
    x := Node(10, [x]);
    MadeOfNone(4);
    DeclarationMade(Node(4, []), x);
    x := Node(5, [Node(4, []), x]);
    MadeOfOne(2, x, INPUT);
    x := Node(2, [x]);
    MadeDerives(x);
  }

  lemma {:induction false} DeclarationMade(none: Tree, x: Tree)
    requires Made(none, 57, []) && Made(x, 58, INPUT)
    ensures Made(Node(5, [none, x]), 56, INPUT)
  {
    hide Parses, Root;
    MadeOfTwo(5, none, x);
  }

  lemma MadeDerives(x: Tree)
    requires Made(x, DECLARATION_SEQ, INPUT)
    ensures Derives(x, INPUT)
  {
  }

  // ----- The parser stops in it -----

  /** After k rounds on the input these states are on the stack and these tokens unread. */
  ghost predicate Reaches(k: nat, states: seq<nat>, unread: seq<nat>) {
    ParserShape();
    exists trees: seq<Tree> :: |states| == |trees| + 1 &&
      Steps(ParserTables(), ParserGrammar(), Start(INPUT), k) == Some(Config(states, trees, unread))
  }

  lemma {:induction false} Shifting(k: nat, states: seq<nat>, unread: seq<nat>, v: nat, next: seq<nat>, rest: seq<nat>)
    requires Reaches(k, states, unread) && |states| > 0 && states[|states| - 1] < 188 && states[|states| - 1] != 4
    requires unread != [] && Act(ParserTables(), states[|states| - 1], unread[0]) == Shift(v)
    requires next == states + [v] && rest == unread[1..]
    ensures Reaches(k + 1, next, rest)
  {
    hide Pact, Defact, Check, Table, R1, R2, Prhs, Rhs, RhsAt, Pgoto, Defgoto, Steps, Act;
    var t, g := ParserTables(), ParserGrammar();
    ParserShape();
    var trees: seq<Tree> :| |states| == |trees| + 1 &&
        Steps(t, g, Start(INPUT), k) == Some(Config(states, trees, unread));
    StepsMore(t, g, Start(INPUT), Config(states, trees, unread), k);
    assert Steps(t, g, Start(INPUT), k + 1) == Some(Config(next, trees + [Leaf(unread[0])], rest));
  }

  lemma {:induction false} Reducing(k: nat, states: seq<nat>, unread: seq<nat>, n: nat, next: seq<nat>)
    requires Reaches(k, states, unread) && |states| > 0 && states[|states| - 1] < 188 && states[|states| - 1] != 4
    requires ACCEPT < n < 134 && R2(n) < |states| && 54 < R1(n) < 103
    requires Act(ParserTables(), states[|states| - 1], Next(unread)) == Reduce(n)
    requires var j := |states| - R2(n);
             var v := GotoState(states[j - 1], R1(n)); v > 0 && next == states[..j] + [v]
    ensures Reaches(k + 1, next, unread)
  {
    hide Pact, Defact, Check, Table, R1, R2, Prhs, Rhs, RhsAt, Pgoto, Defgoto, Steps, Act;
    var t, g := ParserTables(), ParserGrammar();
    ParserShape();
    var trees: seq<Tree> :| |states| == |trees| + 1 &&
        Steps(t, g, Start(INPUT), k) == Some(Config(states, trees, unread));
    StepsMore(t, g, Start(INPUT), Config(states, trees, unread), k);
    var i := |trees| - R2(n);
    assert Steps(t, g, Start(INPUT), k + 1) == Some(Config(next, trees[..i] + [Node(n, trees[i..])], unread));
  }

  /** The specifier is read, and the name. */
  lemma {:induction false} FirstRounds()
    ensures Reaches(7, [0, 3, 39, 35], [51, 35, 45])
  {
    hide Steps, Shape, Reaches;
    AtFirst();
    Reducing(0, [0], INPUT, 4, [0, 3]);
    Shifting(1, [0, 3], INPUT, 17, [0, 3, 17], [42, 51, 35, 45]);
    Reducing(2, [0, 3, 17], [42, 51, 35, 45], 48, [0, 3, 43]);
    Reducing(3, [0, 3, 43], [42, 51, 35, 45], 33, [0, 3, 42]);
    Reducing(4, [0, 3, 42], [42, 51, 35, 45], 27, [0, 3, 40]);
    Reducing(5, [0, 3, 40], [42, 51, 35, 45], 24, [0, 3, 39]);
    Shifting(6, [0, 3, 39], [42, 51, 35, 45], 35, [0, 3, 39, 35], [51, 35, 45]);
  }

  lemma {:induction false} AtFirst()
    ensures Reaches(0, [0], INPUT)
  {
    ParserShape();
    assert Steps(ParserTables(), ParserGrammar(), Start(INPUT), 0) == Some(Config([0], [], INPUT));
  }

  /** The name is taken for a second specifier, and no declarator is left. */
  lemma {:induction false} LastRounds()
    ensures Reaches(13, [0, 3, 38, 67], [51, 35, 45])
  {
    hide Steps, Shape, Reaches;
    FirstRounds();
    Reducing(7, [0, 3, 39, 35], [51, 35, 45], 56, [0, 3, 39, 43]);
    Reducing(8, [0, 3, 39, 43], [51, 35, 45], 33, [0, 3, 39, 42]);
    Reducing(9, [0, 3, 39, 42], [51, 35, 45], 27, [0, 3, 39, 73]);
    Reducing(10, [0, 3, 39, 73], [51, 35, 45], 25, [0, 3, 39]);
    Reducing(11, [0, 3, 39], [51, 35, 45], 23, [0, 3, 38]);
    Reducing(12, [0, 3, 38], [51, 35, 45], 17, [0, 3, 38, 67]);
  }

  /** The grammar derives these tokens, and no derivation of them is one that the tables follow. */
  lemma {:induction false} ShadowedTypeRefused() returns (x: Tree)
    ensures Derives(x, INPUT)
    ensures forall y :: Derives(y, INPUT) ==> !Chosen(y)
  {
    hide Steps, Chosen, Parses, Root, Yield, Step, CleanSentence, ParserTables, ParserGrammar;
    x := InputMade();
    LastRounds();
    var c := Stuck();
    StopsEarly(ParserTables(), ParserGrammar(), INPUT, c, 13);
    forall y | Derives(y, INPUT) ensures !Chosen(y) {
      ChosenExactly(y, INPUT);
    }
  }

  lemma {:induction false} Stuck() returns (c: Config)
    requires Reaches(13, [0, 3, 38, 67], [51, 35, 45])
    ensures Shape(ParserTables(), ParserGrammar()) && Proper(ParserTables(), c)
    ensures Steps(ParserTables(), ParserGrammar(), Start(INPUT), 13) == Some(c)
    ensures c.states[|c.trees|] != ParserTables().final
    ensures Step(ParserTables(), ParserGrammar(), c) == None
  {
    hide Steps;
    ParserShape();
    var trees: seq<Tree> :| |trees| == 3 &&
      Steps(ParserTables(), ParserGrammar(), Start(INPUT), 13) == Some(Config([0, 3, 38, 67], trees, [51, 35, 45]));
    c := Config([0, 3, 38, 67], trees, [51, 35, 45]);
    assert Act(ParserTables(), 67, 51) == Reject;
  }
}
