/** When the tables of a parser follow every derivation of its grammar but for a list of choices that
    the generator has settled. */
module LrComplete {
  import opened LrTables
  import opened LrRuns

  /** In this state, before this token, the tables do not reduce by this rule although they might. */
  datatype Clash = Clash(state: nat, rule: nat, token: nat)

  /** The tokens a symbol can start with, those that can follow it, the symbols that can stand for
      nothing, and the clashes. */
  datatype Choices = Choices(first: seq<set<nat>>, follow: seq<set<nat>>, nullable: set<nat>, clashes: set<Clash>)

  ghost predicate Sized(t: Tables, g: Grammar, l: Choices) {
    && |l.first| == |l.follow|
    && (forall n: nat, i: nat :: n < |g.rhs| && i < |g.rhs[n]| ==> g.rhs[n][i] < |l.first|)
    && (forall n: nat :: n < |g.lhs| ==> g.lhs[n] < |l.first|)
    && (forall x: nat, a: nat :: x < |l.first| && a in l.first[x] ==> a < t.tokens)
    && (forall x: nat :: x < t.tokens && x < |l.first| ==> x in l.first[x])
  }

  /** Positions i to j of a rule can all stand for nothing. */
  ghost predicate Empties(g: Grammar, l: Choices, n: nat, i: nat, j: nat)
    requires n < |g.rhs| && j <= |g.rhs[n]|
  {
    forall m :: i <= m < j ==> g.rhs[n][m] in l.nullable
  }

  /** What follows position i of a rule, which may be -1, may start with what position j starts with. */
  ghost predicate Neighbours(g: Grammar, l: Choices)
    requires |l.first| == |l.follow| && |g.lhs| == |g.rhs|
    requires forall n: nat, i: nat :: n < |g.rhs| && i < |g.rhs[n]| ==> g.rhs[n][i] < |l.first|
    requires forall n: nat :: n < |g.lhs| ==> g.lhs[n] < |l.first|
  {
    && (forall n: nat, j: nat :: ACCEPT < n < |g.rhs| && j < |g.rhs[n]| && Empties(g, l, n, 0, j) ==>
          l.first[g.rhs[n][j]] <= l.first[g.lhs[n]])
    && (forall n: nat :: ACCEPT < n < |g.rhs| && Empties(g, l, n, 0, |g.rhs[n]|) ==> g.lhs[n] in l.nullable)
    && (forall n: nat, i: nat, j: nat :: n < |g.rhs| && i < j < |g.rhs[n]| && Empties(g, l, n, i + 1, j) ==>
          l.first[g.rhs[n][j]] <= l.follow[g.rhs[n][i]])
    && (forall n: nat, i: nat :: ACCEPT < n < |g.rhs| && i < |g.rhs[n]| && Empties(g, l, n, i + 1, |g.rhs[n]|) ==>
          l.follow[g.lhs[n]] <= l.follow[g.rhs[n][i]])
  }

  /** An incomplete item of a state is followed: the tables move over the symbol behind its dot. */
  ghost predicate Moves(t: Tables, g: Grammar, items: Items, s: nat, i: Item)
    requires Shape(t, g) && |items| == |t.pact| && s < |items| && i.rule < |g.rhs| && i.dot < |g.rhs[i.rule]|
    requires g.rhs[i.rule][i.dot] < t.tokens + |t.pgoto|
  {
    var x := g.rhs[i.rule][i.dot];
    s != t.final &&
    if x < t.tokens then
      var a := Act(t, s, x);
      a.Shift? && a.state < |items| && Item(i.rule, i.dot + 1) in items[a.state]
    else
      && 0 < Goto(t, s, x) < |items| && Item(i.rule, i.dot + 1) in items[Goto(t, s, x)]
      && forall n: nat :: ACCEPT < n < |g.rhs| && g.lhs[n] == x ==> Item(n, 0) in items[s]
  }

  /** A complete item of a state is reduced before every token that can follow, but for the clashes. */
  ghost predicate Reduces(t: Tables, g: Grammar, items: Items, l: Choices, s: nat, n: nat)
    requires Shape(t, g) && |items| == |t.pact| && s < |items| && n < |g.lhs| && g.lhs[n] < |l.follow|
  {
    s != t.final && forall a: nat :: a in l.follow[g.lhs[n]] && a < t.tokens ==>
      Act(t, s, a) == Reduce(n) || Clash(s, n, a) in l.clashes
  }

  ghost predicate Complete(t: Tables, g: Grammar, items: Items, l: Choices) {
    && Shape(t, g) && ItemsOk(t, g, items) && Sized(t, g, l) && Neighbours(g, l)
    && |l.first| <= t.tokens + |t.pgoto| && |g.rhs[ACCEPT]| == 2 && g.rhs[ACCEPT][1] == 0
    && t.tokens <= g.rhs[ACCEPT][0]
    && Item(ACCEPT, 0) in items[0]
    && (forall s: nat :: s < |items| && Item(ACCEPT, 2) in items[s] ==> s == t.final)
    && (forall s: nat, i :: s < |items| && i in items[s] && i.dot < |g.rhs[i.rule]| ==> Moves(t, g, items, s, i))
    && (forall s: nat, n: nat :: s < |items| && ACCEPT < n < |g.rhs| && Item(n, |g.rhs[n]|) in items[s] ==>
          Reduces(t, g, items, l, s, n))
    // a clash is a reduction that the tables do not make
    && (forall c :: c in l.clashes && c.state < |t.pact| ==> Act(t, c.state, c.token) != Reduce(c.rule))
  }

  // ----- First tokens -----

  /** The first token of a tree, if it has one. */
  lemma {:induction false} TreeStarts(t: Tables, g: Grammar, l: Choices, x: Tree)
    requires Shape(t, g) && Sized(t, g, l) && Neighbours(g, l) && Parses(t, g, x) && Root(g, x) < |l.first|
    ensures if Yield(x) == [] then Root(g, x) in l.nullable else Yield(x)[0] in l.first[Root(g, x)]
    decreases x, 0
  {
    match x {
      case Leaf(tok) =>
      case Node(n, kids) =>
        var j := KidsStart(t, g, l, n, kids, 0);
        assert kids[0..] == kids && Root(g, x) == g.lhs[n];
    }
  }

  /** The first token of the children from position i on, if there is one, is that of some child with
      nothing before it. */
  lemma {:induction false} KidsStart(t: Tables, g: Grammar, l: Choices, n: nat, kids: seq<Tree>, i: nat)
      returns (j: nat)
    requires Shape(t, g) && Sized(t, g, l) && Neighbours(g, l) && n < |g.rhs| && i <= |kids|
    requires Roots(g, kids) == g.rhs[n] && forall k :: k in kids ==> Parses(t, g, k)
    ensures i <= j <= |kids| == |g.rhs[n]| && Empties(g, l, n, i, j)
    ensures if YieldAll(kids[i..]) == [] then j == |kids|
            else j < |kids| && YieldAll(kids[i..])[0] in l.first[g.rhs[n][j]]
    decreases kids, |kids| - i
  {
    hide Shape, Neighbours;
    if i == |kids| {
      j := i;
    } else {
      TreeStarts(t, g, l, kids[i]);
      assert Roots(g, kids)[i] == g.rhs[n][i];
      assert kids[i..][1..] == kids[i + 1..];
      if Yield(kids[i]) == [] {
        j := KidsStart(t, g, l, n, kids, i + 1);
      } else {
        j := i;
      }
    }
  }

  /** What comes after child i of a node can follow it. */
  lemma {:induction false} NextFollows(t: Tables, g: Grammar, l: Choices, n: nat, kids: seq<Tree>, i: nat, a: nat)
    requires Shape(t, g) && Sized(t, g, l) && Neighbours(g, l) && n < |g.rhs| && i < |kids|
    requires Roots(g, kids) == g.rhs[n] && forall k :: k in kids ==> Parses(t, g, k)
    requires a < t.tokens && if n > ACCEPT then a in l.follow[g.lhs[n]] else kids[i + 1..] == [Leaf(0)]
    ensures |kids| == |g.rhs[n]| && First(kids[i + 1..], a) in l.follow[g.rhs[n][i]] &&
        First(kids[i + 1..], a) < t.tokens
  {
    hide Shape;
    var j := KidsStart(t, g, l, n, kids, i + 1);
    if n <= ACCEPT {
      YieldOne(Leaf(0));
    }
  }

  // ----- Derivations without clashes -----

  /** On the way over the tree x from state s, with token a behind it, no reduction is a clash. */
  ghost predicate Plain(t: Tables, g: Grammar, l: Choices, s: nat, x: Tree, a: nat)
    requires Shape(t, g)
    decreases x, 0
  {
    match x
    case Leaf(_) => true
    case Node(n, kids) =>
      PlainAll(t, g, l, s, kids, a) && Clash(AfterAll(t, g, s, kids), n, a) !in l.clashes
  }

  ghost predicate PlainAll(t: Tables, g: Grammar, l: Choices, s: nat, xs: seq<Tree>, a: nat)
    requires Shape(t, g)
    decreases xs
  {
    xs == [] ||
    (Plain(t, g, l, s, xs[0], First(xs[1..], a)) && PlainAll(t, g, l, After(t, g, s, xs[0]), xs[1..], a))
  }

  /** Such a tree is followed, and the items that expect it are moved over it. */
  lemma {:induction false} PlainIsClean(t: Tables, g: Grammar, items: Items, l: Choices, s: nat, x: Tree, a: nat,
      i: Item)
    requires Complete(t, g, items, l) && s < |items| && i in items[s]
    requires i.rule < |g.rhs| && i.dot < |g.rhs[i.rule]| && g.rhs[i.rule][i.dot] == Root(g, x)
    requires Parses(t, g, x) && a < t.tokens && (x.Node? ==> a in l.follow[Root(g, x)])
    requires Plain(t, g, l, s, x, a)
    ensures Clean(t, g, s, x, a) && After(t, g, s, x) < |items|
    ensures Item(i.rule, i.dot + 1) in items[After(t, g, s, x)]
    decreases x, 0
  {
    hide Neighbours, Reduces, Act, Goto;
    MovesHere(t, g, items, l, s, i);
    match x {
      case Leaf(tok) =>
      case Node(n, kids) =>
        assert Item(n, 0) in items[s];
        KidsPlain(t, g, items, l, s, n, kids, 0, a);
        assert kids[0..] == kids;
        ReducesHere(t, g, items, l, AfterAll(t, g, s, kids), n, a);
    }
  }

  lemma {:induction false} ReducesHere(t: Tables, g: Grammar, items: Items, l: Choices, s: nat, n: nat, a: nat)
    requires Complete(t, g, items, l) && s < |items| && ACCEPT < n < |g.rhs| && Item(n, |g.rhs[n]|) in items[s]
    requires a < t.tokens && n < |g.lhs| && g.lhs[n] < |l.follow| && a in l.follow[g.lhs[n]]
    requires Clash(s, n, a) !in l.clashes
    ensures s < |t.pact| && s != t.final && Act(t, s, a) == Reduce(n)
  {
    hide Neighbours, Moves, Act;
    assert Reduces(t, g, items, l, s, n);
  }

  lemma {:induction false} MovesHere(t: Tables, g: Grammar, items: Items, l: Choices, s: nat, i: Item)
    requires Complete(t, g, items, l) && s < |items| && i in items[s] && i.rule < |g.rhs| && i.dot < |g.rhs[i.rule]|
    ensures Shape(t, g) && |items| == |t.pact| && g.rhs[i.rule][i.dot] < t.tokens + |t.pgoto|
    ensures Moves(t, g, items, s, i)
  {
    hide Neighbours, Reduces, Moves, Act;
  }

  lemma {:induction false} KidsPlain(t: Tables, g: Grammar, items: Items, l: Choices, s: nat, n: nat,
      kids: seq<Tree>, d: nat, a: nat)
    requires Complete(t, g, items, l) && s < |items| && n < |g.rhs| && d <= |kids| && Item(n, d) in items[s]
    requires Roots(g, kids) == g.rhs[n] && forall k :: k in kids ==> Parses(t, g, k)
    requires a < t.tokens && n > ACCEPT && a in l.follow[g.lhs[n]]
    requires PlainAll(t, g, l, s, kids[d..], a)
    ensures CleanAll(t, g, s, kids[d..], a)
    ensures AfterAll(t, g, s, kids[d..]) < |items| && Item(n, |g.rhs[n]|) in items[AfterAll(t, g, s, kids[d..])]
    decreases kids, |kids| - d
  {
    hide Neighbours, Reduces, Moves, First, After, Clean, Plain;
    if d < |kids| {
      assert kids[d..][1..] == kids[d + 1..] && kids[d..][0] == kids[d];
      NextFollows(t, g, l, n, kids, d, a);
      assert Roots(g, kids)[d] == Root(g, kids[d]);
      PlainIsClean(t, g, items, l, s, kids[d], First(kids[d + 1..], a), Item(n, d));
      KidsPlain(t, g, items, l, After(t, g, s, kids[d]), n, kids, d + 1, a);
    }
  }

  /** And a tree that is followed has no clash. */
  lemma {:induction false} CleanIsPlain(t: Tables, g: Grammar, items: Items, l: Choices, s: nat, x: Tree, a: nat)
    requires Complete(t, g, items, l) && Clean(t, g, s, x, a)
    ensures Plain(t, g, l, s, x, a)
    decreases x, 0
  {
    match x {
      case Leaf(_) =>
      case Node(n, kids) =>
        CleanAllIsPlain(t, g, items, l, s, kids, a);
    }
  }

  lemma {:induction false} CleanAllIsPlain(t: Tables, g: Grammar, items: Items, l: Choices, s: nat, xs: seq<Tree>,
      a: nat)
    requires Complete(t, g, items, l) && CleanAll(t, g, s, xs, a)
    ensures PlainAll(t, g, l, s, xs, a)
    decreases xs
  {
    if xs != [] {
      CleanIsPlain(t, g, items, l, s, xs[0], First(xs[1..], a));
      CleanAllIsPlain(t, g, items, l, After(t, g, s, xs[0]), xs[1..], a);
    }
  }

  /** Of a derivation tree of a whole input: the parser follows it if and only if it has no clash. */
  lemma {:induction false} FollowedExactly(t: Tables, g: Grammar, items: Items, l: Choices, x: Tree)
    requires Complete(t, g, items, l) && Parses(t, g, x) && Root(g, x) == g.rhs[ACCEPT][0]
    ensures CleanSentence(t, g, x) <==> Plain(t, g, l, 0, x, 0)
  {
    hide Neighbours, Moves, Reduces, Act, Goto;
    if CleanSentence(t, g, x) {
      CleanIsPlain(t, g, items, l, 0, x, 0);
    }
    if Plain(t, g, l, 0, x, 0) {
      var kids := [x, Leaf(0)];
      assert Roots(g, kids) == g.rhs[ACCEPT] && kids[1..] == [Leaf(0)];
      NextFollows(t, g, l, ACCEPT, kids, 0, 0);
      YieldOne(Leaf(0));
      PlainIsClean(t, g, items, l, 0, x, 0, Item(ACCEPT, 0));
      var v := After(t, g, 0, x);
      PlainIsClean(t, g, items, l, v, Leaf(0), 0, Item(ACCEPT, 1));
    }
  }
}
