/** The tables of a generated LALR parser, the actions they encode, and the agreement with a
    grammar that makes the driver sound. */
module LrTables {

  datatype Tables = Tables(
    pact: seq<int>, defact: seq<nat>, check: seq<int>, table: seq<int>,
    r1: seq<nat>, r2: seq<nat>, pgoto: seq<int>, defgoto: seq<int>,
    ninf: int, last: nat, tokens: nat, final: nat)

  /** A rule of the grammar rewrites lhs[n] to rhs[n]; symbols below tokens are terminals.
      Rules are numbered from 1. */
  datatype Grammar = Grammar(lhs: seq<nat>, rhs: seq<seq<nat>>)

  /** The rule that rewrites the accepting symbol to the start symbol and the end marker. */
  const ACCEPT: nat := 1

  /** Rule number rule, recognised up to position dot. */
  datatype Item = Item(rule: nat, dot: nat)

  datatype Action = Shift(state: nat) | Reduce(rule: nat) | Reject

  // ----- The actions the tables encode -----

  ghost predicate Shape(t: Tables, g: Grammar) {
    && |t.pact| == |t.defact| > 0 && |t.check| == |t.table| == t.last + 1
    && |t.pgoto| == |t.defgoto| && t.final < |t.pact| && t.final != 0
    && |t.r1| == |t.r2| == |g.lhs| == |g.rhs| > ACCEPT
    && t.tokens > 0
    && (forall n :: 0 <= n < |g.rhs| ==> t.r1[n] == g.lhs[n] && t.r2[n] == |g.rhs[n]|)
    && (forall n :: ACCEPT < n < |g.rhs| ==> t.tokens <= t.r1[n] < t.tokens + |t.pgoto|)
  }

  function DefaultAction(t: Tables, s: nat): Action
    requires s < |t.defact|
  {
    if t.defact[s] == 0 then Reject else Reduce(t.defact[s])
  }

  /** What the parser does in state s when the next token is tok. */
  function ActionOn(t: Tables, s: nat, tok: nat): Action
    requires s < |t.pact| == |t.defact| && |t.check| == |t.table| == t.last + 1
  {
    var n := t.pact[s] + tok;
    if n < 0 || t.last < n || t.check[n] != tok then DefaultAction(t, s)
    else if t.table[n] <= 0 then Reduce(-t.table[n])
    else Shift(t.table[n])
  }

  /** Some states reduce whatever comes next. */
  predicate Decided(t: Tables, s: nat)
    requires s < |t.pact|
  {
    t.pact[s] == t.ninf
  }

  /** The state entered from s after a reduction to the nonterminal sym. */
  function Goto(t: Tables, s: nat, sym: nat): int
    requires t.tokens <= sym < t.tokens + |t.pgoto| && |t.pgoto| == |t.defgoto|
    requires |t.check| == |t.table| == t.last + 1
  {
    var n := t.pgoto[sym - t.tokens] + s;
    if 0 <= n <= t.last && t.check[n] == s then t.table[n] else t.defgoto[sym - t.tokens]
  }

  // ----- Agreement with the grammar -----

  type Items = seq<set<Item>>

  ghost predicate ItemsOk(t: Tables, g: Grammar, items: Items) {
    && |items| == |t.pact|
    && forall s, i :: 0 <= s < |items| && i in items[s] ==> i.rule < |g.rhs| && i.dot <= |g.rhs[i.rule]|
  }

  /** State v may follow state u on symbol x: each item of v past its start is an item of u
      moved over x. */
  ghost predicate Follows(g: Grammar, items: Items, u: nat, x: nat, v: int) {
    && u < |items| && 0 < v < |items|
    && forall i :: i in items[v] && i.dot > 0 ==>
         i.rule < |g.rhs| && i.dot <= |g.rhs[i.rule]| &&
         g.rhs[i.rule][i.dot - 1] == x && Item(i.rule, i.dot - 1) in items[u]
  }

  /** An action taken in state s on token tok (or before any token) is justified. */
  ghost predicate Justified(t: Tables, g: Grammar, items: Items, s: nat, a: Action, tok: nat)
    requires s < |items|
  {
    match a
    case Reject => true
    case Shift(v) => Follows(g, items, s, tok, v)
    case Reduce(n) => ACCEPT < n < |g.rhs| && Item(n, |g.rhs[n]|) in items[s]
  }

  /** Items assigned to the states explain every entry of the tables that the driver uses: in
      the final state it stops before it looks at them. */
  ghost predicate Agrees(t: Tables, g: Grammar, items: Items) {
    && Shape(t, g) && ItemsOk(t, g, items)
    && (forall s: nat, tok: nat :: s < |items| && s != t.final && tok < t.tokens && !Decided(t, s) ==>
          Justified(t, g, items, s, ActionOn(t, s, tok), tok))
    && (forall s: nat :: s < |items| && s != t.final ==> Justified(t, g, items, s, DefaultAction(t, s), 0))
    // a rule about to start in a state can be left by the goto on its left-hand side
    && (forall s: nat, n: nat :: s < |items| && ACCEPT < n < |g.rhs| && Item(n, 0) in items[s] ==>
          Follows(g, items, s, g.lhs[n], Goto(t, s, g.lhs[n])))
    // the accepting rule is started in state 0 only, and finished in the final state
    && (forall i :: i in items[0] ==> i.dot == 0)
    && (forall s: nat :: s < |items| && Item(ACCEPT, 0) in items[s] ==> s == 0)
    && |g.rhs[ACCEPT]| == 2 && g.rhs[ACCEPT][1] == 0 && Item(ACCEPT, 2) in items[t.final]
    // the end marker occurs in the accepting rule alone
    && (forall n: nat :: ACCEPT < n < |g.rhs| ==> 0 !in g.rhs[n])
    && g.rhs[ACCEPT][0] != 0
  }

  /** What the agreement says of one action. */
  lemma ActionFits(t: Tables, g: Grammar, items: Items, s: nat, tok: nat)
    requires Agrees(t, g, items) && s < |t.pact| && s != t.final && tok < t.tokens
    ensures s < |items| && |t.pact| == |t.defact| && |t.check| == |t.table| == t.last + 1
    ensures Justified(t, g, items, s, DefaultAction(t, s), 0)
    ensures !Decided(t, s) ==> Justified(t, g, items, s, ActionOn(t, s, tok), tok)
  {
  }

  /** What the agreement says of one reduction. */
  lemma ReduceFits(t: Tables, g: Grammar, items: Items, s: nat, n: nat)
    requires Agrees(t, g, items) && s < |items| && ACCEPT < n < |g.rhs| && Item(n, 0) in items[s]
    ensures n < |g.lhs| && n < |t.r1| && n < |t.r2| && t.r1[n] == g.lhs[n] && t.r2[n] == |g.rhs[n]|
    ensures t.tokens <= t.r1[n] < t.tokens + |t.pgoto| && |t.pgoto| == |t.defgoto|
    ensures |t.check| == |t.table| == t.last + 1
    ensures Goto(t, s, t.r1[n]) > 0 && Follows(g, items, s, g.lhs[n], Goto(t, s, t.r1[n]))
  {
  }

  // ----- A rank for termination -----

  /** A weight for each symbol, a height for each state, and the worth of a token not read yet. */
  datatype Rank = Rank(weight: seq<nat>, height: seq<nat>, worth: nat)

  function Weight(r: Rank, x: nat): nat {
    if x < |r.weight| then r.weight[x] else 0
  }

  function Height(r: Rank, s: int): nat {
    if 0 <= s < |r.height| then r.height[s] else 0
  }

  function Weights(r: Rank, xs: seq<nat>): nat {
    if xs == [] then 0 else Weight(r, xs[0]) + Weights(r, xs[1..])
  }

  lemma {:induction false} WeightsConcat(r: Rank, xs: seq<nat>, ys: seq<nat>)
    ensures Weights(r, xs + ys) == Weights(r, xs) + Weights(r, ys)
  {
    if xs == [] {
      assert xs + ys == ys;
    } else {
      assert (xs + ys)[1..] == xs[1..] + ys;
      WeightsConcat(r, xs[1..], ys);
    }
  }

  /** An action of state s on token tok goes down: a shift costs less than the token is worth, and
      a reduction leaves less weight and height than it takes, whatever state it uncovers. */
  ghost predicate GoesDown(t: Tables, g: Grammar, items: Items, r: Rank, s: nat, a: Action, tok: nat)
    requires Shape(t, g)
  {
    match a
    case Reject => true
    case Shift(v) => if tok == 0 then v == t.final else Weight(r, tok) + Height(r, v) < r.worth
    case Reduce(n) =>
      ACCEPT < n < |g.rhs| && forall u: nat :: u < |items| && Item(n, 0) in items[u] && (g.rhs[n] == [] ==> u == s) ==>
        Weight(r, g.lhs[n]) + Height(r, Goto(t, u, g.lhs[n])) < Weights(r, g.rhs[n]) + Height(r, s)
  }

  /** Every action that the driver can take goes down. */
  ghost predicate Descends(t: Tables, g: Grammar, items: Items, r: Rank) {
    && Shape(t, g)
    && (forall s: nat :: s < |t.pact| && s != t.final && Decided(t, s) ==>
          GoesDown(t, g, items, r, s, DefaultAction(t, s), 0))
    && (forall s: nat, tok: nat :: s < |t.pact| && s != t.final && tok < t.tokens && !Decided(t, s) ==>
          GoesDown(t, g, items, r, s, ActionOn(t, s, tok), tok))
  }

  /** What the descent says of one action. */
  lemma ActionDescends(t: Tables, g: Grammar, items: Items, r: Rank, s: nat, tok: nat)
    requires Descends(t, g, items, r) && s < |t.pact| && s != t.final && tok < t.tokens
    ensures Shape(t, g)
    ensures Decided(t, s) ==> GoesDown(t, g, items, r, s, DefaultAction(t, s), 0)
    ensures !Decided(t, s) ==> GoesDown(t, g, items, r, s, ActionOn(t, s, tok), tok)
  {
  }

  // ----- Parse trees -----

  datatype Tree = Leaf(token: nat) | Node(rule: nat, kids: seq<Tree>)

  function Root(g: Grammar, x: Tree): nat {
    match x
    case Leaf(tok) => tok
    case Node(n, _) => if n < |g.lhs| then g.lhs[n] else 0
  }

  function Roots(g: Grammar, xs: seq<Tree>): (r: seq<nat>)
    ensures |r| == |xs|
    ensures forall i :: 0 <= i < |xs| ==> r[i] == Root(g, xs[i])
  {
    seq(|xs|, i requires 0 <= i < |xs| => Root(g, xs[i]))
  }

  /** Each inner node is an instance of a rule other than the accepting one, each leaf a token. */
  ghost predicate Parses(t: Tables, g: Grammar, x: Tree) {
    match x
    case Leaf(tok) => tok < t.tokens
    case Node(n, kids) =>
      ACCEPT < n < |g.rhs| && Roots(g, kids) == g.rhs[n] && forall k :: k in kids ==> Parses(t, g, k)
  }

  function Yield(x: Tree): seq<nat> {
    match x
    case Leaf(tok) => [tok]
    case Node(_, kids) => YieldAll(kids)
  }

  function YieldAll(xs: seq<Tree>): seq<nat> {
    if xs == [] then [] else Yield(xs[0]) + YieldAll(xs[1..])
  }

  lemma {:induction false} YieldAllConcat(xs: seq<Tree>, ys: seq<Tree>)
    ensures YieldAll(xs + ys) == YieldAll(xs) + YieldAll(ys)
  {
    if xs == [] {
      assert xs + ys == ys;
    } else {
      assert (xs + ys)[1..] == xs[1..] + ys;
      YieldAllConcat(xs[1..], ys);
    }
  }

  lemma YieldOne(x: Tree)
    ensures YieldAll([x]) == Yield(x)
  {
  }

  // ----- Stacks -----

  /** A stack of states, each following the one below it on the root of the tree between them. */
  ghost predicate Linked(g: Grammar, items: Items, states: seq<nat>, trees: seq<Tree>) {
    && |states| == |trees| + 1 && states[0] == 0 && 0 < |items|
    && forall i :: 0 <= i < |trees| ==> Follows(g, items, states[i], Root(g, trees[i]), states[i + 1])
  }

  lemma LinkedPush(g: Grammar, items: Items, states: seq<nat>, trees: seq<Tree>, x: Tree, v: nat)
    requires Linked(g, items, states, trees) && Follows(g, items, states[|trees|], Root(g, x), v)
    ensures Linked(g, items, states + [v], trees + [x])
  {
  }

  lemma LinkedPop(g: Grammar, items: Items, states: seq<nat>, trees: seq<Tree>, k: nat)
    requires Linked(g, items, states, trees) && k <= |trees|
    ensures Linked(g, items, states[..k + 1], trees[..k])
  {
  }

  /** An item of the state on top tells the symbols on top of the stack and the state below them. */
  lemma {:induction false} ItemOnTop(t: Tables, g: Grammar, items: Items, states: seq<nat>, trees: seq<Tree>,
      n: nat, d: nat)
    requires Agrees(t, g, items) && Linked(g, items, states, trees)
    requires states[|trees|] < |items| && Item(n, d) in items[states[|trees|]]
    ensures n < |g.rhs| && d <= |g.rhs[n]| && d <= |trees|
    ensures Roots(g, trees[|trees| - d..]) == g.rhs[n][..d]
    ensures states[|trees| - d] < |items| && Item(n, 0) in items[states[|trees| - d]]
    decreases d
  {
    hide Shape, Justified;
    var k := |trees|;
    if d == 0 {
      assert trees[k..] == [];
    } else {
      assert k > 0;
      assert Follows(g, items, states[k - 1], Root(g, trees[k - 1]), states[k]);
      ItemOnTop(t, g, items, states[..k], trees[..k - 1], n, d - 1);
      assert trees[..k - 1][k - 1 - (d - 1)..] == trees[k - d..k - 1];
      assert trees[k - d..] == trees[k - d..k - 1] + [trees[k - 1]];
      assert g.rhs[n][..d] == g.rhs[n][..d - 1] + [g.rhs[n][d - 1]];
    }
  }

  /** Replacing the trees on top by the node over them changes no yield. */
  lemma {:induction false} ReduceYield(trees: seq<Tree>, n: nat, k: nat)
    requires k <= |trees|
    ensures YieldAll(trees[..k] + [Node(n, trees[k..])]) == YieldAll(trees)
  {
    hide YieldAll;
    YieldAllConcat(trees[..k], [Node(n, trees[k..])]);
    YieldOne(Node(n, trees[k..]));
    YieldAllConcat(trees[..k], trees[k..]);
    assert trees[..k] + trees[k..] == trees;
  }

  /** A complete rule on top of the stack can be reduced. */
  lemma {:induction false} ReduceStack(t: Tables, g: Grammar, items: Items, states: seq<nat>, trees: seq<Tree>, n: nat)
    requires Agrees(t, g, items) && Linked(g, items, states, trees)
    requires forall i :: 0 <= i < |trees| ==> Parses(t, g, trees[i])
    requires ACCEPT < n < |g.rhs| && states[|trees|] < |items| && Item(n, |g.rhs[n]|) in items[states[|trees|]]
    ensures n < |t.r1| && n < |t.r2| && t.r2[n] <= |trees|
    ensures t.tokens <= t.r1[n] < t.tokens + |t.pgoto| && |t.pgoto| == |t.defgoto|
    ensures |t.check| == |t.table| == t.last + 1
    ensures var k := |trees| - t.r2[n];
            k <= |trees| && states[k] < |items| && Item(n, 0) in items[states[k]] && Roots(g, trees[k..]) == g.rhs[n]
    ensures var k := |trees| - t.r2[n];
            var x, v := Node(n, trees[k..]), Goto(t, states[k], t.r1[n]);
            v > 0 && Parses(t, g, x) && Linked(g, items, states[..k + 1] + [v], trees[..k] + [x])
  {
    hide Agrees, Follows;
    ItemOnTop(t, g, items, states, trees, n, |g.rhs[n]|);
    var k := |trees| - |g.rhs[n]|;
    ReduceFits(t, g, items, states[k], n);
    var x := Node(n, trees[k..]);
    assert g.rhs[n][..|g.rhs[n]|] == g.rhs[n];
    LinkedPop(g, items, states, trees, k);
    LinkedPush(g, items, states[..k + 1], trees[..k], x, Goto(t, states[k], t.r1[n]));
  }

  /** A tree with another root than the end marker has no end marker in its yield. */
  lemma {:induction false} NoEndMarker(t: Tables, g: Grammar, items: Items, x: Tree)
    requires Agrees(t, g, items) && Parses(t, g, x) && Root(g, x) != 0
    ensures 0 !in Yield(x)
    decreases x, 0
  {
    hide Shape, Justified;
    match x
    case Leaf(_) =>
    case Node(n, kids) =>
      forall i | 0 <= i < |kids| ensures Root(g, kids[i]) != 0 {
        assert Roots(g, kids)[i] in g.rhs[n];
      }
      NoEndMarkers(t, g, items, kids);
  }

  lemma {:induction false} NoEndMarkers(t: Tables, g: Grammar, items: Items, xs: seq<Tree>)
    requires Agrees(t, g, items)
    requires forall i :: 0 <= i < |xs| ==> Parses(t, g, xs[i]) && Root(g, xs[i]) != 0
    ensures 0 !in YieldAll(xs)
    decreases xs
  {
    hide Shape, Justified;
    if xs != [] {
      NoEndMarker(t, g, items, xs[0]);
      NoEndMarkers(t, g, items, xs[1..]);
    }
  }
}
