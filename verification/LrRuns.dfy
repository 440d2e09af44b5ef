/** The runs of a parser as a function of its tables, and the derivation trees that they build. */
module LrRuns {
  import opened LrTables
  import opened Wrappers

  /** The stacks of the driver, and the tokens that have not been shifted. */
  datatype Config = Config(states: seq<nat>, trees: seq<Tree>, unread: seq<nat>)

  /** The next token; 0 at the end of the input. */
  function Next(unread: seq<nat>): nat {
    if unread == [] then 0 else unread[0]
  }

  /** What the driver does in state s when the next token is tok. */
  function Act(t: Tables, s: nat, tok: nat): Action
    requires s < |t.pact| == |t.defact| && |t.check| == |t.table| == t.last + 1
  {
    if Decided(t, s) then DefaultAction(t, s) else ActionOn(t, s, tok)
  }

  ghost predicate Proper(t: Tables, c: Config) {
    |c.states| == |c.trees| + 1 && c.states[|c.trees|] < |t.pact|
  }

  /** The next token on the stack, and state v above it. */
  function Shifted(c: Config, v: nat): Config {
    Config(c.states + [v], c.trees + [Leaf(Next(c.unread))], if c.unread == [] then [] else c.unread[1..])
  }

  /** The trees for the right-hand side of rule n replaced by the node over them. */
  ghost function Reduced(t: Tables, g: Grammar, c: Config, n: nat): Option<Config>
    requires Shape(t, g) && Proper(t, c)
  {
    if ACCEPT < n < |g.rhs| && t.r2[n] <= |c.trees| then
      var k := |c.trees| - t.r2[n];
      var v := Goto(t, c.states[k], t.r1[n]);
      if v > 0 then Some(Config(c.states[..k + 1] + [v], c.trees[..k] + [Node(n, c.trees[k..])], c.unread)) else None
    else None
  }

  /** One round of the driver; none if it stops here. */
  ghost function Step(t: Tables, g: Grammar, c: Config): Option<Config>
    requires Shape(t, g) && Proper(t, c)
  {
    var s := c.states[|c.trees|];
    if s == t.final then None
    else match Act(t, s, Next(c.unread))
         case Reject => None
         case Shift(v) => Some(Shifted(c, v))
         case Reduce(n) => Reduced(t, g, c, n)
  }

  lemma StepOf(t: Tables, g: Grammar, c: Config)
    requires Shape(t, g) && Proper(t, c) && c.states[|c.trees|] != t.final
    ensures Step(t, g, c) == match Act(t, c.states[|c.trees|], Next(c.unread))
                             case Reject => None
                             case Shift(v) => Some(Shifted(c, v))
                             case Reduce(n) => Reduced(t, g, c, n)
  {
  }

  lemma FinalStops(t: Tables, g: Grammar, c: Config)
    requires Shape(t, g) && Proper(t, c) && c.states[|c.trees|] == t.final
    ensures Step(t, g, c) == None
  {
  }

  /** The configuration after n rounds; none if the driver stops before. */
  ghost function Steps(t: Tables, g: Grammar, c: Config, n: nat): Option<Config>
    requires Shape(t, g)
    decreases n
  {
    if n == 0 then Some(c)
    else if !Proper(t, c) then None
    else match Step(t, g, c)
         case None => None
         case Some(d) => Steps(t, g, d, n - 1)
  }

  lemma {:induction false} StepsTwice(t: Tables, g: Grammar, c: Config, d: Config, m: nat, n: nat)
    requires Shape(t, g) && Steps(t, g, c, m) == Some(d)
    ensures Steps(t, g, c, m + n) == Steps(t, g, d, n)
    decreases m
  {
    hide Step, Shape;
    if m > 0 {
      StepsTwice(t, g, Step(t, g, c).value, d, m - 1, n);
    }
  }

  /** One round more. */
  lemma {:induction false} StepsMore(t: Tables, g: Grammar, c: Config, d: Config, n: nat)
    requires Shape(t, g) && Steps(t, g, c, n) == Some(d) && Proper(t, d)
    ensures Steps(t, g, c, n + 1) == Step(t, g, d)
  {
    hide Step, Shape;
    StepsTwice(t, g, c, d, n, 1);
    if Step(t, g, d).Some? {
      assert Steps(t, g, Step(t, g, d).value, 0) == Step(t, g, d);
    }
  }

  /** After the last round there is none. */
  lemma {:induction false} NoStepsAfter(t: Tables, g: Grammar, c: Config, d: Config, m: nat, n: nat)
    requires Shape(t, g) && Steps(t, g, c, m) == Some(d) && Proper(t, d) && Step(t, g, d) == None && m < n
    ensures Steps(t, g, c, n) == None
  {
    hide Step, Shape;
    StepsTwice(t, g, c, d, m, n - m);
  }

  // ----- Trees that the parser follows -----

  /** The first token of what these trees and then token a stand for. */
  function First(xs: seq<Tree>, a: nat): nat {
    var y := YieldAll(xs);
    if y == [] then a else y[0]
  }

  /** The state above state s once tree x has been pushed. */
  ghost function After(t: Tables, g: Grammar, s: nat, x: Tree): nat
    requires Shape(t, g)
  {
    match x
    case Leaf(tok) =>
      if s < |t.pact| && Act(t, s, tok).Shift? then Act(t, s, tok).state else 0
    case Node(n, _) =>
      if ACCEPT < n < |g.rhs| && Goto(t, s, t.r1[n]) > 0 then Goto(t, s, t.r1[n]) else 0
  }

  ghost function AfterAll(t: Tables, g: Grammar, s: nat, xs: seq<Tree>): nat
    requires Shape(t, g)
    decreases |xs|
  {
    if xs == [] then s else AfterAll(t, g, After(t, g, s, xs[0]), xs[1..])
  }

  /** From state s the parser builds the tree x out of its tokens, if token a follows them. */
  ghost predicate Clean(t: Tables, g: Grammar, s: nat, x: Tree, a: nat)
    requires Shape(t, g)
    decreases x, 0
  {
    && s < |t.pact| && s != t.final
    && match x
       case Leaf(tok) => Act(t, s, tok).Shift?
       case Node(n, kids) =>
         && ACCEPT < n < |g.rhs| && Roots(g, kids) == g.rhs[n] && CleanAll(t, g, s, kids, a)
         && var u := AfterAll(t, g, s, kids);
            u < |t.pact| && u != t.final && Act(t, u, a) == Reduce(n) && Goto(t, s, t.r1[n]) > 0
  }

  ghost predicate CleanAll(t: Tables, g: Grammar, s: nat, xs: seq<Tree>, a: nat)
    requires Shape(t, g)
    decreases xs
  {
    xs == [] ||
    (Clean(t, g, s, xs[0], First(xs[1..], a)) && CleanAll(t, g, After(t, g, s, xs[0]), xs[1..], a))
  }

  lemma {:induction false} AfterAllConcat(t: Tables, g: Grammar, s: nat, xs: seq<Tree>, ys: seq<Tree>)
    requires Shape(t, g)
    ensures AfterAll(t, g, s, xs + ys) == AfterAll(t, g, AfterAll(t, g, s, xs), ys)
    decreases |xs|
  {
    if xs == [] {
      assert xs + ys == ys;
    } else {
      assert (xs + ys)[1..] == xs[1..] + ys;
      AfterAllConcat(t, g, After(t, g, s, xs[0]), xs[1..], ys);
    }
  }

  lemma {:induction false} FirstConcat(xs: seq<Tree>, ys: seq<Tree>, a: nat)
    ensures First(xs + ys, a) == First(xs, First(ys, a))
  {
    YieldAllConcat(xs, ys);
  }

  lemma {:induction false} CleanConcat(t: Tables, g: Grammar, s: nat, xs: seq<Tree>, ys: seq<Tree>, a: nat)
    requires Shape(t, g)
    ensures CleanAll(t, g, s, xs + ys, a) <==>
            CleanAll(t, g, s, xs, First(ys, a)) && CleanAll(t, g, AfterAll(t, g, s, xs), ys, a)
    decreases |xs|
  {
    hide Clean, After, First, Shape;
    if xs == [] {
      assert xs + ys == ys;
    } else {
      assert (xs + ys)[1..] == xs[1..] + ys;
      FirstConcat(xs[1..], ys, a);
      CleanConcat(t, g, After(t, g, s, xs[0]), xs[1..], ys, a);
    }
  }

  // ----- Such trees are built -----

  lemma {:induction false} FirstNext(xs: seq<Tree>, z: seq<nat>)
    ensures First(xs, Next(z)) == Next(YieldAll(xs) + z)
  {
  }

  /** The parser turns the tokens of a tree that it follows into this tree. */
  lemma {:induction false} Pushes(t: Tables, g: Grammar, c: Config, x: Tree, z: seq<nat>) returns (k: nat)
    requires Shape(t, g) && |c.states| == |c.trees| + 1 && c.unread == Yield(x) + z
    requires Clean(t, g, c.states[|c.trees|], x, Next(z))
    ensures Steps(t, g, c, k) ==
            Some(Config(c.states + [After(t, g, c.states[|c.trees|], x)], c.trees + [x], z))
    decreases x, 0
  {
    hide Shape, Act, Goto, Step, Steps;
    match x {
      case Leaf(tok) =>
        ShiftStep(t, g, c, tok, z);
        FirstStep(t, g, c);
        k := 1;
      case Node(n, kids) =>
        var d;
        k, d := PushesAll(t, g, c, kids, z);
        ReduceStep(t, g, c, d, n, kids);
        StepsMore(t, g, c, d, k);
        k := k + 1;
    }
  }

  lemma FirstStep(t: Tables, g: Grammar, c: Config)
    requires Shape(t, g) && Proper(t, c)
    ensures Steps(t, g, c, 1) == Step(t, g, c)
  {
    hide Step, Shape;
    StepsMore(t, g, c, c, 0);
  }

  /** The last step of a token. */
  lemma {:induction false} ShiftStep(t: Tables, g: Grammar, c: Config, tok: nat, z: seq<nat>)
    requires Shape(t, g) && |c.states| == |c.trees| + 1 && c.unread == [tok] + z
    requires Clean(t, g, c.states[|c.trees|], Leaf(tok), Next(z))
    ensures Step(t, g, c) == Some(Config(c.states + [After(t, g, c.states[|c.trees|], Leaf(tok))],
        c.trees + [Leaf(tok)], z))
  {
    hide Act;
    assert c.unread[1..] == z;
  }

  /** The last step of a node. */
  lemma {:induction false} ReduceStep(t: Tables, g: Grammar, c: Config, d: Config, n: nat, kids: seq<Tree>)
    requires Shape(t, g) && |c.states| == |c.trees| + 1 && |d.states| == |d.trees| + 1
    requires d.trees == c.trees + kids && d.states[..|c.states|] == c.states
    requires var s, u := c.states[|c.trees|], d.states[|d.trees|];
             && ACCEPT < n < |g.rhs| && |kids| == |g.rhs[n]| && u < |t.pact| && u != t.final
             && Act(t, u, Next(d.unread)) == Reduce(n) && Goto(t, s, t.r1[n]) > 0
    ensures Step(t, g, d) ==
            Some(Config(c.states + [Goto(t, c.states[|c.trees|], t.r1[n])], c.trees + [Node(n, kids)], d.unread))
  {
    hide Decided, DefaultAction, ActionOn, Goto;
    var k := |d.trees| - |kids|;
    assert d.trees[..k] == c.trees && d.trees[k..] == kids;
    assert d.states[k] == d.states[..|c.states|][k];
    assert d.states[..k + 1] == c.states;
  }

  lemma {:induction false} PushesAll(t: Tables, g: Grammar, c: Config, xs: seq<Tree>, z: seq<nat>)
      returns (k: nat, d: Config)
    requires Shape(t, g) && |c.states| == |c.trees| + 1 && c.unread == YieldAll(xs) + z
    requires CleanAll(t, g, c.states[|c.trees|], xs, Next(z))
    ensures Steps(t, g, c, k) == Some(d) && d.trees == c.trees + xs && d.unread == z
    ensures |d.states| == |d.trees| + 1 && d.states[..|c.states|] == c.states
    ensures d.states[|d.trees|] == AfterAll(t, g, c.states[|c.trees|], xs)
    decreases xs
  {
    hide Shape, Clean, After, Step;
    if xs == [] {
      k, d := 0, c;
    } else {
      var s := c.states[|c.trees|];
      var z' := YieldAll(xs[1..]) + z;
      FirstNext(xs[1..], z);
      assert c.unread == Yield(xs[0]) + z';
      var j := Pushes(t, g, c, xs[0], z');
      var e := Config(c.states + [After(t, g, s, xs[0])], c.trees + [xs[0]], z');
      k, d := PushesAll(t, g, e, xs[1..], z);
      StepsTwice(t, g, c, e, j, k);
      k := j + k;
      assert c.trees + [xs[0]] + xs[1..] == c.trees + xs;
      assert d.states[..|c.states|] == d.states[..|e.states|][..|c.states|];
    }
  }

  // ----- Whole inputs -----

  function Start(input: seq<nat>): Config {
    Config([0], [], input)
  }

  /** The parser follows the tree of a whole input to the final state. */
  ghost predicate CleanSentence(t: Tables, g: Grammar, x: Tree)
    requires Shape(t, g)
  {
    && Clean(t, g, 0, x, 0)
    && var v := After(t, g, 0, x); Clean(t, g, v, Leaf(0), 0) && After(t, g, v, Leaf(0)) == t.final
  }

  /** Then it accepts. */
  lemma {:induction false} CleanAccepted(t: Tables, g: Grammar, x: Tree) returns (k: nat)
    requires Shape(t, g) && CleanSentence(t, g, x)
    ensures Steps(t, g, Start(Yield(x)), k) ==
            Some(Config([0, After(t, g, 0, x), t.final], [x, Leaf(0)], []))
  {
    hide Shape, Decided, DefaultAction, ActionOn, Goto;
    var c := Start(Yield(x));
    assert c.unread == Yield(x) + [];
    var j := Pushes(t, g, c, x, []);
    var v := After(t, g, 0, x);
    var d := Config([0, v], [x], []);
    assert [0] + [v] == [0, v] && [] + [x] == [x];
    var e := Config([0, v, t.final], [x, Leaf(0)], []);
    assert Step(t, g, d) == Some(e) by {
      assert [0, v] + [t.final] == [0, v, t.final] && [x] + [Leaf(0)] == [x, Leaf(0)];
    }
    StepsMore(t, g, c, d, j);
    k := j + 1;
  }

  // ----- No others are -----

  /** The trees on the stack are followed by the parser, and the states are those it passes. */
  ghost predicate Good(t: Tables, g: Grammar, c: Config)
    requires Shape(t, g)
  {
    && |c.states| == |c.trees| + 1 && CleanAll(t, g, 0, c.trees, Next(c.unread))
    && forall i :: 0 <= i <= |c.trees| ==> c.states[i] == AfterAll(t, g, 0, c.trees[..i])
  }

  lemma {:induction false} PushGood(t: Tables, g: Grammar, c: Config, k: nat, x: Tree, unread: seq<nat>)
    requires Shape(t, g) && Good(t, g, c) && k <= |c.trees|
    requires CleanAll(t, g, 0, c.trees[..k], First([x], Next(unread))) && Clean(t, g, c.states[k], x, Next(unread))
    ensures Good(t, g, Config(c.states[..k + 1] + [After(t, g, c.states[k], x)], c.trees[..k] + [x], unread))
  {
    hide Shape, Clean, After, First;
    var s, trees := c.states[k], c.trees[..k] + [x];
    CleanConcat(t, g, 0, c.trees[..k], [x], Next(unread));
    assert [x][1..] == [] && First([], Next(unread)) == Next(unread) by { FirstNothing(Next(unread)); }
    AfterAllConcat(t, g, 0, c.trees[..k], [x]);
    forall i | 0 <= i <= |trees|
      ensures (c.states[..k + 1] + [After(t, g, s, x)])[i] == AfterAll(t, g, 0, trees[..i])
    {
      if i <= k {
        assert trees[..i] == c.trees[..i];
      } else {
        assert trees[..i] == trees;
      }
    }
  }

  lemma FirstNothing(a: nat)
    ensures First([], a) == a
  {
  }

  lemma {:induction false} FirstOne(x: Tree, a: nat)
    ensures First([x], a) == if Yield(x) == [] then a else Yield(x)[0]
  {
    YieldOne(x);
  }

  /** A round keeps this. */
  lemma {:induction false} StepGood(t: Tables, g: Grammar, items: Items, c: Config)
    requires Agrees(t, g, items) && Proper(t, c) && Good(t, g, c) && Linked(g, items, c.states, c.trees)
    requires forall x :: x in c.trees ==> Parses(t, g, x)
    requires Next(c.unread) < t.tokens
    ensures Step(t, g, c).Some? ==> Good(t, g, Step(t, g, c).value)
  {
    hide Agrees, Linked, Parses, ActionOn, DefaultAction, Goto, Decided;
    var s, a := c.states[|c.trees|], Next(c.unread);
    ShapeOf(t, g, items);
    if s != t.final {
      ActionFits(t, g, items, s, a);
      match Act(t, s, a) {
        case Reject =>
        case Shift(v) =>
          FirstOne(Leaf(a), Next(if c.unread == [] then [] else c.unread[1..]));
          assert c.trees[..|c.trees|] == c.trees && c.states[..|c.trees| + 1] == c.states;
          PushGood(t, g, c, |c.trees|, Leaf(a), if c.unread == [] then [] else c.unread[1..]);
        case Reduce(n) => ReduceGood(t, g, items, c, n);
      }
    }
  }

  lemma ShapeOf(t: Tables, g: Grammar, items: Items)
    requires Agrees(t, g, items)
    ensures Shape(t, g) && |items| == |t.pact|
  {
  }

  lemma {:induction false} ReduceGood(t: Tables, g: Grammar, items: Items, c: Config, n: nat)
    requires Agrees(t, g, items) && Proper(t, c) && Good(t, g, c) && Linked(g, items, c.states, c.trees)
    requires forall x :: x in c.trees ==> Parses(t, g, x)
    requires c.states[|c.trees|] != t.final && Act(t, c.states[|c.trees|], Next(c.unread)) == Reduce(n)
    requires ACCEPT < n < |g.rhs| && Item(n, |g.rhs[n]|) in items[c.states[|c.trees|]]
    ensures Step(t, g, c).Some? ==> Good(t, g, Step(t, g, c).value)
  {
    hide Agrees, Linked, Parses, Act, Goto, Good, Clean, CleanAll, After, First, Step;
    ShapeOf(t, g, items);
    ReduceStack(t, g, items, c.states, c.trees, n);
    var k := |c.trees| - t.r2[n];
    var x := Node(n, c.trees[k..]);
    InRange(t, g, items, c.states, c.trees, k);
    NodeClean(t, g, c, n, k);
    PushGood(t, g, c, k, x, c.unread);
    StepOf(t, g, c);
  }

  /** The node over the top of the stack is followed from the state below it. */
  lemma {:induction false} NodeClean(t: Tables, g: Grammar, c: Config, n: nat, k: nat)
    requires Shape(t, g) && Proper(t, c) && Good(t, g, c) && k <= |c.trees| && c.states[k] < |t.pact|
    requires c.states[|c.trees|] != t.final && Act(t, c.states[|c.trees|], Next(c.unread)) == Reduce(n)
    requires ACCEPT < n < |g.rhs| && Roots(g, c.trees[k..]) == g.rhs[n]
    requires Goto(t, c.states[k], t.r1[n]) > 0
    ensures var x := Node(n, c.trees[k..]);
            && CleanAll(t, g, 0, c.trees[..k], First([x], Next(c.unread)))
            && Clean(t, g, c.states[k], x, Next(c.unread))
            && After(t, g, c.states[k], x) == Goto(t, c.states[k], t.r1[n])
  {
    hide Act, Goto, Shape;
    var front, kids, a := c.trees[..k], c.trees[k..], Next(c.unread);
    assert front + kids == c.trees && c.trees[..|c.trees|] == c.trees;
    CleanConcat(t, g, 0, front, kids, a);
    AfterAllConcat(t, g, 0, front, kids);
    FirstOne(Node(n, kids), a);
  }

  /** The states on the stack exist, and none below the top is the final one. */
  lemma {:induction false} InRange(t: Tables, g: Grammar, items: Items, states: seq<nat>, trees: seq<Tree>, k: nat)
    requires Agrees(t, g, items) && Linked(g, items, states, trees) && k <= |trees|
    ensures states[k] < |t.pact|
  {
    if k > 0 {
      assert Follows(g, items, states[k - 1], Root(g, trees[k - 1]), states[k]);
    }
  }

  /** In the final state the stack holds the accepting rule. */
  lemma {:induction false} FinalStack(t: Tables, g: Grammar, items: Items, states: seq<nat>, trees: seq<Tree>)
    requires Agrees(t, g, items) && Linked(g, items, states, trees) && states[|trees|] == t.final
    requires forall x :: x in trees ==> Parses(t, g, x)
    ensures |trees| == 2 && trees[1] == Leaf(0) && Parses(t, g, trees[0]) && 0 !in Yield(trees[0])
    ensures |g.rhs| > ACCEPT && |g.rhs[ACCEPT]| > 0 && Root(g, trees[0]) == g.rhs[ACCEPT][0]
  {
    ItemOnTop(t, g, items, states, trees, ACCEPT, 2);
    var k := |trees| - 2;
    assert k > 0 ==> Follows(g, items, states[k - 1], Root(g, trees[k - 1]), states[k]);
    assert Roots(g, trees[k..])[0] == Root(g, trees[0]) && Roots(g, trees[k..])[1] == Root(g, trees[1]) == 0;
    assert trees[0] in trees && trees[1] in trees;
    NoEndMarker(t, g, items, trees[0]);
  }

  /** Where the driver accepts, it has followed the tree it has built. */
  lemma {:induction false} FinalClean(t: Tables, g: Grammar, items: Items, c: Config)
    requires Agrees(t, g, items) && Proper(t, c) && Good(t, g, c) && Linked(g, items, c.states, c.trees)
    requires forall x :: x in c.trees ==> Parses(t, g, x)
    requires c.states[|c.trees|] == t.final
    ensures Shape(t, g) && |c.trees| == 2 && CleanSentence(t, g, c.trees[0])
  {
    hide Clean, After, Agrees, Linked, Parses, First;
    ShapeOf(t, g, items);
    FinalStack(t, g, items, c.states, c.trees);
    var x, y, a := c.trees[0], c.trees[1], Next(c.unread);
    assert c.trees[1..] == [y] && [y][1..] == [];
    FirstOne(y, a);
    FirstNothing(a);
    assert c.trees[..2] == c.trees;
    var v := After(t, g, 0, x);
    assert AfterAll(t, g, v, [y]) == AfterAll(t, g, After(t, g, v, y), []);
    assert CleanAll(t, g, v, [y], a);
    assert Clean(t, g, 0, x, 0);
    assert Clean(t, g, v, y, a);
    LeafClean(t, g, v, a);
    assert After(t, g, v, Leaf(0)) == t.final;
  }

  /** What follows makes no difference to a token. */
  lemma LeafClean(t: Tables, g: Grammar, s: nat, a: nat)
    requires Shape(t, g)
    ensures Clean(t, g, s, Leaf(0), a) == Clean(t, g, s, Leaf(0), 0)
  {
  }

  /** If the parser follows the tree of an input, it stops in the final state and nowhere else. */
  lemma {:induction false} CleanNotRejected(t: Tables, g: Grammar, x: Tree, c: Config, n: nat)
    requires Shape(t, g) && CleanSentence(t, g, x) && Steps(t, g, Start(Yield(x)), n) == Some(c)
    requires Proper(t, c) && Step(t, g, c).None?
    ensures c.states[|c.trees|] == t.final && c.trees == [x, Leaf(0)]
  {
    hide Step, Shape, CleanSentence, Clean;
    var k := CleanAccepted(t, g, x);
    var d := Config([0, After(t, g, 0, x), t.final], [x, Leaf(0)], []);
    if n < k {
      StepsTwice(t, g, Start(Yield(x)), c, n, k - n);
    } else {
      StepsTwice(t, g, Start(Yield(x)), d, k, n - k);
      FinalStays(t, g, d, n - k);
    }
  }

  /** A driver that stops before the final state has no tree to find. */
  lemma {:induction false} StopsEarly(t: Tables, g: Grammar, input: seq<nat>, c: Config, k: nat)
    requires Shape(t, g) && Steps(t, g, Start(input), k) == Some(c) && Proper(t, c)
    requires Step(t, g, c) == None && c.states[|c.trees|] != t.final
    ensures forall x :: CleanSentence(t, g, x) ==> Yield(x) != input
  {
    hide Step, Shape, CleanSentence, Proper;
    forall x | CleanSentence(t, g, x) ensures Yield(x) != input {
      if Yield(x) == input {
        CleanNotRejected(t, g, x, c, k);
      }
    }
  }

  /** The parser follows at most one tree of an input. */
  lemma {:induction false} CleanUnique(t: Tables, g: Grammar, x: Tree, y: Tree)
    requires Shape(t, g) && CleanSentence(t, g, x) && CleanSentence(t, g, y) && Yield(x) == Yield(y)
    ensures x == y
  {
    hide Step, CleanSentence, Clean, Steps;
    var k := CleanAccepted(t, g, x);
    var c := Config([0, After(t, g, 0, x), t.final], [x, Leaf(0)], []);
    FinalStops(t, g, c);
    CleanNotRejected(t, g, y, c, k);
  }

  lemma {:induction false} FinalStays(t: Tables, g: Grammar, d: Config, n: nat)
    requires Shape(t, g) && |d.states| == |d.trees| + 1 && d.states[|d.trees|] == t.final
    ensures Steps(t, g, d, n) == if n == 0 then Some(d) else None
  {
  }
}
