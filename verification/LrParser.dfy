/** The parser driver: two stacks that grow together, a lookahead token, and one round of
    shift, reduce, accept or error at a time. */
module LrParser {
  import opened LrRuns
  import opened LrTables
  import opened Wrappers

  datatype Status = Running | Accepted | SyntaxError | Exhausted

  /** The lookahead: none read yet, or a token (0 at the end of the input). */
  datatype Lookahead = Empty | Token(token: nat)

  class Parser {
    const t: Tables
    const initDepth: nat
    const maxDepth: nat
    /** The grammar, the items of each state and the rank of every action, for the proof only. */
    ghost const g: Grammar
    ghost const items: Items
    ghost const rank: Rank
    /** All the tokens of the input. */
    ghost const input: seq<nat>

    /** State stack and value stack; slot 0 of the values is never used. */
    var ss: array<nat>
    var vs: array<Tree>
    var sp: nat
    var stackSize: nat
    var state: nat
    var look: Lookahead
    /** The tokens the lexer has yet to deliver. */
    var rest: seq<nat>
    var status: Status
    /** How often the end of the input has been shifted. */
    ghost var ends: nat

    ghost function Trees(): seq<Tree>
      reads this`vs, this`sp, vs
      requires sp < vs.Length
    {
      vs[1..sp + 1]
    }

    /** The tokens that have not been shifted yet; the end of the input is not one of them. */
    ghost function Unread(): seq<nat>
      reads this`look, this`rest
    {
      if look.Token? && look.token != 0 then [look.token] + rest else rest
    }

    ghost predicate Valid()
      reads this, ss, vs
    {
      && Agrees(t, g, items) && Descends(t, g, items, rank) && initDepth > 0
      && ss.Length == vs.Length == stackSize && sp < stackSize && (initDepth <= maxDepth ==> stackSize <= maxDepth)
      && (forall i :: 0 <= i < |input| ==> 0 < input[i] < t.tokens)
      && (forall i :: 0 <= i < |rest| ==> 0 < rest[i] < t.tokens)
      && (look.Token? ==> look.token < t.tokens && (look.token == 0 ==> rest == []))
      && Derived(Trees(), Unread(), ends)
    }

    /** The trees derive the tokens that have been shifted, the end of the input among them. */
    ghost predicate Derived(trees: seq<Tree>, unread: seq<nat>, ends: nat) {
      && (forall x :: x in trees ==> Parses(t, g, x))
      && YieldAll(trees) + unread == input + seq(ends, _ => 0)
      && (ends > 0 ==> unread == [])
    }

    /** The stacks agree, with the state that is about to be stored on top. */
    ghost predicate Stacked()
      reads this, ss, vs
      requires sp < ss.Length && sp < vs.Length
    {
      Linked(g, items, ss[..sp] + [state], Trees())
    }

    /** The configuration before a round, with the state that is about to be stored on top. */
    ghost function Now(): Config
      reads this, ss, vs
      requires sp < ss.Length && sp < vs.Length
    {
      Config(ss[..sp] + [state], Trees(), Unread())
    }

    /** The configuration once the state has been stored. */
    ghost function Stored(): Config
      reads this, ss, vs
      requires sp < ss.Length && sp < vs.Length
    {
      Config(ss[..sp + 1], Trees(), Unread())
    }

    /** What is left to do: tokens, trees on the stack, and reductions of nothing. */
    ghost function Potential(c: Config): nat
      requires |c.states| > 0
    {
      rank.worth * |c.unread| + Weights(rank, Roots(g, c.trees)) + Height(rank, c.states[|c.states| - 1])
    }

    constructor (t: Tables, ghost g: Grammar, ghost items: Items, ghost rank: Rank, input: seq<nat>,
        initDepth: nat, maxDepth: nat)
      requires Agrees(t, g, items) && Descends(t, g, items, rank) && initDepth > 0
      requires forall i :: 0 <= i < |input| ==> 0 < input[i] < t.tokens
      ensures Valid() && Stacked() && status == Running && this.input == input && this.g == g && this.t == t
      ensures fresh(ss) && fresh(vs) && Now() == Start(input) && this.items == items
      ensures this.initDepth == initDepth && this.maxDepth == maxDepth
    {
      this.t, this.g, this.items, this.rank, this.input := t, g, items, rank, input;
      this.initDepth, this.maxDepth := initDepth, maxDepth;
      ss := new nat[initDepth](_ => 0);
      vs := new Tree[initDepth](_ => Leaf(0));
      sp, stackSize, state, look, rest, status, ends := 0, initDepth, 0, Empty, input, Running, 0;
      new;
      assert Trees() == [];
    }

    /** Stores the state; makes room for one more if the stacks are full. */
    method StoreState()
      requires Valid() && Stacked() && status == Running
      modifies this, ss, vs
      ensures Valid() && (ss == old(ss) || fresh(ss)) && (vs == old(vs) || fresh(vs))
      ensures Trees() == old(Trees()) && sp == old(sp) && look == old(look) && rest == old(rest) && ends == old(ends)
      ensures ss[..sp + 1] == old(ss[..sp] + [state]) && state == old(state) && Stored() == old(Now())
      ensures status == Running ==> sp + 1 < stackSize
      ensures status == Running || (status == Exhausted && maxDepth <= sp + 1)
    {
      hide Agrees, Descends, Follows, Parses, YieldAll;
      ss[sp] := state;
      if stackSize <= sp + 1 {
        if maxDepth <= stackSize {
          status := Exhausted;
          return;
        }
        Enlarge();
        if stackSize <= sp + 1 {
          status := Exhausted;
        }
      }
    }

    /** Moves both stacks to arrays of twice the size, or of the largest size allowed. */
    method Enlarge()
      requires Valid() && stackSize < maxDepth
      modifies this`ss, this`vs, this`stackSize
      ensures fresh(ss) && fresh(vs) && ss.Length == vs.Length == stackSize > old(stackSize)
      ensures ss[..sp + 1] == old(ss[..sp + 1]) && vs[..sp + 1] == old(vs[..sp + 1]) && stackSize <= maxDepth
    {
      hide Agrees, Descends, Follows, Parses, YieldAll, Trees, Unread;
      stackSize := stackSize * 2;
      if maxDepth < stackSize {
        stackSize := maxDepth;
      }
      var ss' := new nat[stackSize](i requires 0 <= i reads this, ss => if i < ss.Length then ss[i] else 0);
      var vs' := new Tree[stackSize](i requires 0 <= i reads this, vs => if i < vs.Length then vs[i] else Leaf(0));
      assert ss'[..sp + 1] == ss[..sp + 1] && vs'[..sp + 1] == vs[..sp + 1];
      ss, vs := ss', vs';
    }

    /** Decides what to do in the state on top, reading a token only if that is needed. */
    method Decide() returns (a: Action)
      requires Valid() && state < |t.pact| && state != t.final
      modifies this`look, this`rest
      ensures Valid()
      ensures Justified(t, g, items, state, a, if look.Token? then look.token else 0)
      ensures a.Shift? ==> look.Token?
      ensures Unread() == old(Unread())
      ensures |t.pact| == |t.defact| && |t.check| == |t.table| == t.last + 1 && a == Act(t, state, Next(Unread()))
      ensures a.Shift? ==> look.token == Next(Unread())
      ensures Shape(t, g) && GoesDown(t, g, items, rank, state, a, if look.Token? then look.token else 0)
    {
      hide Agrees, Descends, Follows, Parses, YieldAll, Weights, Roots;
      TokensExist();
      ActionFits(t, g, items, state, 0);
      ActionDescends(t, g, items, rank, state, 0);
      if t.pact[state] == t.ninf {
        a := DefaultAction(t, state);
        return;
      }
      if look.Empty? {
        if rest == [] {
          look := Token(0);
        } else {
          look, rest := Token(rest[0]), rest[1..];
        }
      }
      ActionFits(t, g, items, state, look.token);
      ActionDescends(t, g, items, rank, state, look.token);
      a := ActionOn(t, state, look.token);
    }

    lemma TokensExist()
      requires Agrees(t, g, items)
      ensures t.tokens > 0
    {
    }

    /** Drops the top n entries of both stacks. */
    method Pop(n: nat)
      requires n <= sp < vs.Length
      modifies this`sp
      ensures sp == old(sp) - n && Trees() == old(Trees())[..sp]
    {
      sp := sp - n;
    }

    /** Puts value x on its stack, and v where the next round will store it. */
    method Push(x: Tree, v: nat)
      requires sp < ss.Length == vs.Length && sp + 1 < vs.Length
      modifies this`sp, this`state, vs
      ensures sp == old(sp) + 1 && state == v && Trees() == old(Trees()) + [x]
    {
      ghost var trees := Trees();
      vs[sp + 1] := x;
      state := v;
      sp := sp + 1;
      assert vs[1..sp + 1] == trees + [x];
    }

    /** Pushes the lookahead token and enters state v. */
    method DoShift(v: nat)
      requires Valid() && status == Running && sp + 1 < stackSize
      requires look.Token? && look.token == Next(Unread()) && Linked(g, items, ss[..sp + 1], Trees())
      requires Follows(g, items, ss[sp], look.token, v)
      requires Shape(t, g) && GoesDown(t, g, items, rank, ss[sp], Shift(v), look.token)
      modifies this, vs
      ensures Valid() && Stacked() && ss == old(ss) && vs == old(vs) && status == Running
      ensures Now() == old(Shifted(Stored(), v))
      ensures state == t.final || Potential(Now()) < old(Potential(Stored()))
    {
      hide Agrees, Descends, Follows, Linked, Derived, Potential, Shape, GoesDown;
      ghost var c := Stored();
      ShiftSound(c, v, ends);
      if look.token == 0 {
        ends := ends + 1;
      }
      var x := Leaf(look.token);
      look := Empty;
      assert Unread() == Shifted(c, v).unread;
      Push(x, v);
      assert ss[..sp] == c.states && Trees() == Shifted(c, v).trees;
    }

    /** What a shift keeps; it costs less than the token that it consumes. */
    lemma {:induction false} ShiftSound(c: Config, v: nat, ends: nat)
      requires Linked(g, items, c.states, c.trees) && Derived(c.trees, c.unread, ends)
      requires Follows(g, items, c.states[|c.trees|], Next(c.unread), v)
      requires forall i :: 0 <= i < |c.unread| ==> 0 < c.unread[i] < t.tokens
      requires Shape(t, g) && GoesDown(t, g, items, rank, c.states[|c.trees|], Shift(v), Next(c.unread))
      ensures var d := Shifted(c, v);
              && Linked(g, items, d.states, d.trees)
              && Derived(d.trees, d.unread, if c.unread == [] then ends + 1 else ends)
              && (v == t.final || Potential(d) < Potential(c))
    {
      hide Follows, Linked, Weights, Roots, YieldAll;
      var x := Leaf(Next(c.unread));
      LinkedPush(g, items, c.states, c.trees, x, v);
      TreePushed(c.trees, x);
      YieldAllConcat(c.trees, [x]);
      YieldOne(x);
      if c.unread == [] {
        assert seq(ends + 1, _ => 0) == seq(ends, _ => 0) + [0];
        assert YieldAll(c.trees) + [] == YieldAll(c.trees);
      } else {
        assert [c.unread[0]] + c.unread[1..] == c.unread;
        Worth(|c.unread|);
      }
    }

    /** A reduction leaves less weight and height than it takes. */
    lemma {:induction false} ReduceGoesDown(trees: seq<Tree>, k: nat, n: nat, s: nat, u: nat)
      requires Shape(t, g) && GoesDown(t, g, items, rank, s, Reduce(n), 0) && ACCEPT < n < |g.rhs|
      requires k <= |trees| && Roots(g, trees[k..]) == g.rhs[n] && (k == |trees| ==> u == s)
      requires u < |items| && Item(n, 0) in items[u]
      ensures Weights(rank, Roots(g, trees[..k] + [Node(n, trees[k..])])) + Height(rank, Goto(t, u, t.r1[n])) <
              Weights(rank, Roots(g, trees)) + Height(rank, s)
    {
      hide Weights, Goto;
      TreesPopped(trees, k);
      TreePushed(trees[..k], Node(n, trees[k..]));
    }

    /** What a reduction keeps. */
    lemma {:induction false} ReduceSound(c: Config, n: nat, ends: nat)
      requires Agrees(t, g, items) && Linked(g, items, c.states, c.trees) && Derived(c.trees, c.unread, ends)
      requires |c.states| == |c.trees| + 1 && c.states[|c.trees|] < |items| && ACCEPT < n < |g.rhs|
      requires Item(n, |g.rhs[n]|) in items[c.states[|c.trees|]]
      requires Shape(t, g) && GoesDown(t, g, items, rank, c.states[|c.trees|], Reduce(n), 0)
      ensures Proper(t, c) && t.r2[n] <= |c.trees| && Goto(t, c.states[|c.trees| - t.r2[n]], t.r1[n]) > 0
      ensures Reduced(t, g, c, n).Some?
      ensures var d := Reduced(t, g, c, n).value;
              && Linked(g, items, d.states, d.trees) && Derived(d.trees, d.unread, ends)
              && |d.states| > 0 && Potential(d) < Potential(c)
    {
      hide Agrees, Linked, Parses, YieldAll, Weights, Roots, Goto, GoesDown, Height;
      ShapeOf(t, g, items);
      ReduceStack(t, g, items, c.states, c.trees, n);
      var k := |c.trees| - t.r2[n];
      ReduceYield(c.trees, n, k);
      ReduceGoesDown(c.trees, k, n, c.states[|c.trees|], c.states[k]);
    }

    /** Replaces the right-hand side of rule n on the stacks by its left-hand side. */
    method DoReduce(n: nat)
      requires Valid() && status == Running && sp + 1 < stackSize
      requires Linked(g, items, ss[..sp + 1], Trees())
      requires ss[sp] < |items| && ACCEPT < n < |g.rhs| && Item(n, |g.rhs[n]|) in items[ss[sp]]
      requires Shape(t, g) && GoesDown(t, g, items, rank, ss[sp], Reduce(n), 0)
      modifies this, vs
      ensures Valid() && Stacked() && ss == old(ss) && vs == old(vs) && status == Running
      ensures old(Proper(t, Stored())) && Some(Now()) == old(Reduced(t, g, Stored(), n))
      ensures Potential(Now()) < old(Potential(Stored()))
    {
      hide Agrees, Descends, Follows, Linked, Derived, Potential, GoesDown, Goto;
      ghost var c := Stored();
      ghost var k := sp - t.r2[n];
      ReduceSound(c, n, ends);
      assert c.states[k] == ss[k];
      Replace(n, t.r2[n]);
      assert Some(Now()) == Reduced(t, g, c, n);
    }

    /** Makes the top len values the children of a node, and leaves its state to be stored. */
    method Replace(n: nat, len: nat)
      requires len <= sp < ss.Length == vs.Length && sp + 1 < vs.Length && n < |t.r1|
      requires t.tokens <= t.r1[n] < t.tokens + |t.pgoto| && |t.pgoto| == |t.defgoto|
      requires |t.check| == |t.table| == t.last + 1 && Goto(t, ss[sp - len], t.r1[n]) >= 0
      modifies this`sp, this`state, vs
      ensures sp == old(sp) - len + 1 && state == Goto(t, ss[old(sp) - len], t.r1[n])
      ensures Trees() == old(Trees())[..old(sp) - len] + [Node(n, old(Trees())[old(sp) - len..])]
      ensures ss[..sp] == old(ss[..sp + 1])[..old(sp) - len + 1]
    {
      var x := Node(n, vs[sp - len + 1..sp + 1]);
      assert x.kids == Trees()[sp - len..];
      Pop(len);
      Push(x, Goto(t, ss[sp], t.r1[n]));
    }

    lemma Worth(n: nat)
      ensures n > 0 ==> rank.worth * n == rank.worth * (n - 1) + rank.worth
    {
    }

    lemma {:induction false} TreePushed(trees: seq<Tree>, x: Tree)
      ensures Weights(rank, Roots(g, trees + [x])) == Weights(rank, Roots(g, trees)) + Weight(rank, Root(g, x))
    {
      assert Roots(g, trees + [x]) == Roots(g, trees) + [Root(g, x)];
      WeightsConcat(rank, Roots(g, trees), [Root(g, x)]);
      assert [Root(g, x)][1..] == [];
    }

    lemma {:induction false} TreesPopped(trees: seq<Tree>, k: nat)
      requires k <= |trees|
      ensures Weights(rank, Roots(g, trees)) ==
          Weights(rank, Roots(g, trees[..k])) + Weights(rank, Roots(g, trees[k..]))
    {
      assert Roots(g, trees) == Roots(g, trees[..k]) + Roots(g, trees[k..]);
      WeightsConcat(rank, Roots(g, trees[..k]), Roots(g, trees[k..]));
    }

    /** Takes the action of the state on top, which is not the final one. */
    method Advance()
      requires Valid() && status == Running && sp + 1 < stackSize
      requires Linked(g, items, ss[..sp + 1], Trees()) && state == ss[sp] != t.final
      modifies this, vs
      ensures ss == old(ss) && vs == old(vs)
      ensures Valid() && (status == Running ==> Stacked())
      ensures status == Running || status == SyntaxError
      ensures status == Running ==> state == t.final || Potential(Now()) < old(Potential(Stored()))
      ensures Shape(t, g) && old(Proper(t, Stored()))
      ensures Step(t, g, old(Stored())) == if status == Running then Some(Now()) else None
    {
      hide Agrees, Descends, Follows, Linked, Derived, Shape, Step, Act, Goto, Shifted, Reduced, Potential;
      ShapeOf(t, g, items);
      InRange(t, g, items, ss[..sp + 1], Trees(), sp);
      ghost var c := Stored();
      var a := Decide();
      assert Stored() == c && Proper(t, c);
      StepOf(t, g, c);
      match a
      case Reject => status := SyntaxError;
      case Shift(v) =>
        DoShift(v);
      case Reduce(n) => DoReduce(n);
    }

    /** One round of the driver, from storing a state to having the next one ready. */
    method Round()
      requires Valid() && Stacked() && status == Running
      modifies this, ss, vs
      ensures (ss == old(ss) || fresh(ss)) && (vs == old(vs) || fresh(vs))
      ensures Valid() && (status == Running ==> Stacked())
      ensures status == Accepted ==> Success()
      ensures status == Running ==> old(state) != t.final
      ensures status == Running ==> state == t.final || Potential(Now()) < old(Potential(Now()))
      ensures Shape(t, g) && old(Proper(t, Now()))
      ensures status != Exhausted ==> Step(t, g, old(Now())) == if status == Running then Some(Now()) else None
      ensures status == SyntaxError ==> old(state) != t.final
      ensures status == Accepted ==> old(state) == t.final && old(Trees()) == Trees()
      ensures status == Exhausted ==> maxDepth <= old(sp) + 1
      ensures status != Exhausted && initDepth <= maxDepth ==> old(sp) + 1 < maxDepth
    {
      hide Agrees, Descends, Follows, Linked, Step, Derived, Shape, Potential, Success;
      ShapeOf(t, g, items);
      InRange(t, g, items, ss[..sp] + [state], Trees(), sp);
      StoreState();
      if status == Running {
        if state == t.final {
          FinalStops(t, g, Stored());
          status := Accepted;
          AcceptedTree(Stored());
        } else {
          Advance();
        }
      }
    }

    /** The input is derived from the start symbol: a tree for it is on the value stack. */
    ghost predicate Success()
      reads this`vs, this`sp, vs
    {
      && 1 < sp < vs.Length && Parses(t, g, vs[1])
      && ACCEPT < |g.rhs| && 0 < |g.rhs[ACCEPT]| && Root(g, vs[1]) == g.rhs[ACCEPT][0] && Yield(vs[1]) == input
    }

    lemma {:induction false} AcceptedTree(c: Config)
      requires Valid() && Linked(g, items, c.states, c.trees)
      requires c == Stored() && c.states[|c.trees|] == t.final
      ensures Success()
    {
      hide Agrees, Descends, Linked, Parses, Yield, YieldAll, Follows;
      FinalStack(t, g, items, c.states, c.trees);
      var x := c.trees[0];
      assert c.trees == [x] + [Leaf(0)];
      YieldAllConcat([x], [Leaf(0)]);
      YieldOne(x);
      YieldOne(Leaf(0));
      LeafYield();
      EndOfInput(Yield(x), c.unread, input, ends);
    }

    static lemma LeafYield()
      ensures Yield(Leaf(0)) == [0]
    {
    }

    /** Cut at the first end marker, what was consumed is the input. */
    static lemma {:induction false} EndOfInput(y: seq<nat>, u: seq<nat>, input: seq<nat>, ends: nat)
      requires y + [0] + u == input + seq(ends, _ => 0)
      requires 0 !in y && 0 !in input
      ensures y == input
    {
      FirstEnd(y, u, input, ends);
    }

    static lemma {:induction false} FirstEnd(y: seq<nat>, u: seq<nat>, input: seq<nat>, ends: nat)
      requires y + [0] + u == input + seq(ends, _ => 0)
      ensures |y| < |input| ==> 0 in input
      ensures |y| > |input| ==> 0 in y
      ensures |y| == |input| ==> y == input
    {
      var z := input + seq(ends, _ => 0);
      assert z[|y|] == (y + [0] + u)[|y|] == 0;
      if |y| < |input| {
        assert input[|y|] == z[|y|];
      } else if |y| > |input| {
        assert y[|input|] == z[|input|] == 0;
      } else {
        assert y == z[..|y|] == input;
      }
    }

    /** The tables follow no tree of the input. */
    ghost predicate NoTree()
      requires Shape(t, g)
    {
      forall x :: CleanSentence(t, g, x) ==> Yield(x) != input
    }

    /** The run puts that many states on the stack. */
    ghost predicate RunsDeep(depth: nat)
      requires Shape(t, g)
    {
      exists k: nat, c: Config :: Steps(t, g, Start(input), k) == Some(c) && depth <= |c.states|
    }

    /** The first k configurations of the run have fewer states than the limit. */
    ghost predicate Shallow(k: nat)
      requires Shape(t, g)
    {
      forall j: nat, c: Config :: j < k && Steps(t, g, Start(input), j) == Some(c) ==> |c.states| < maxDepth
    }

    /** The run has come to configuration c in k rounds. */
    ghost predicate Ongoing(c: Config, k: nat) {
      && Shape(t, g) && Steps(t, g, Start(input), k) == Some(c) && Good(t, g, c)
      && (initDepth <= maxDepth ==> Shallow(k))
    }

    /** What the driver tells by the status it ends with, and the tree if it accepts. */
    ghost predicate Told(s: Status, x: Tree) {
      && Shape(t, g)
      && (s == Accepted ==> CleanSentence(t, g, x)) && (s == SyntaxError ==> NoTree())
      && (s == Exhausted ==> RunsDeep(maxDepth))
      && (s != Exhausted && initDepth <= maxDepth ==> !RunsDeep(maxDepth))
    }

    lemma {:induction false} AtStart()
      requires Agrees(t, g, items)
      ensures Ongoing(Start(input), 0)
    {
      hide Agrees;
      ShapeOf(t, g, items);
    }

    lemma {:induction false} StaysShallow(c: Config, k: nat)
      requires Shape(t, g) && Steps(t, g, Start(input), k) == Some(c) && Proper(t, c) && Step(t, g, c) == None
      requires Shallow(k + 1)
      ensures !RunsDeep(maxDepth)
    {
      hide Step, Shape, Proper, Steps;
      forall j: nat, d: Config | Steps(t, g, Start(input), j) == Some(d) ensures |d.states| < maxDepth {
        if k < j {
          NoStepsAfter(t, g, Start(input), c, k, j);
        }
      }
    }

    /** What the next round shows: it stops in the final state with a tree that the tables follow, it
        stops elsewhere and there is none, or the run goes on; unless the stacks are full. */
    lemma {:induction false} NextRound(c: Config, k: nat, ends: nat)
      requires Agrees(t, g, items) && Ongoing(c, k) && Linked(g, items, c.states, c.trees)
      requires Derived(c.trees, c.unread, ends) && forall i :: 0 <= i < |c.unread| ==> c.unread[i] < t.tokens
      ensures Shape(t, g) && Proper(t, c)
      ensures maxDepth <= |c.states| ==> Told(Exhausted, Leaf(0))
      ensures |c.states| < maxDepth || maxDepth < initDepth ==>
        match Step(t, g, c)
        case Some(d) => Ongoing(d, k + 1)
        case None =>
          if c.states[|c.trees|] == t.final then |c.trees| == 2 && Told(Accepted, c.trees[0])
          else Told(SyntaxError, Leaf(0))
    {
      hide Agrees, Linked, Parses, Step, CleanSentence, CleanAll, AfterAll;
      ShapeOf(t, g, items);
      InRange(t, g, items, c.states, c.trees, |c.trees|);
      StepsMore(t, g, Start(input), c, k);
      StepGood(t, g, items, c);
      if Step(t, g, c) == None {
        if c.states[|c.trees|] == t.final {
          FinalClean(t, g, items, c);
        } else {
          StopsEarly(t, g, input, c, k);
        }
        if initDepth <= maxDepth && |c.states| < maxDepth {
          StaysShallow(c, k);
        }
      }
    }

    /** Runs until the parser accepts or gives up, which it does on every input.  If it accepts, the
        whole input is a sentence and the tables follow the tree on the stack; if it reports an error,
        they follow no tree of the input; and otherwise the run needs more room than the stacks may take. */
    method Parse()
      requires Valid() && Stacked() && status == Running && Now() == Start(input)
      modifies this, ss, vs
      ensures Valid() && status != Running
      ensures status == Accepted ==> Success()
      ensures Told(status, if status == Accepted then vs[1] else Leaf(0))
    {
      hide Agrees, Descends, Derived, Potential, Shape, Step, Linked, Proper, Ongoing, Told;
      ghost var k := 0;
      AtStart();
      while status == Running
        invariant (ss == old(ss) || fresh(ss)) && (vs == old(vs) || fresh(vs))
        invariant Valid() && (status == Running ==> Stacked() && Ongoing(Now(), k))
        invariant status == Accepted ==> Success()
        invariant status != Running ==> Told(status, if status == Accepted then vs[1] else Leaf(0))
        decreases status == Running, state != t.final, Potential(Now())
      {
        ghost var c := Now();
        NextRound(c, k, ends);
        Round();
        k := k + 1;
      }
    }
  }
}
