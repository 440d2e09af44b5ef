/** The menu tree of the configuration tool, linked by list, next and parent links, and the
    traversal that dumps it without a stack. */
module MenuDump {

  datatype PromptKind = CommentPrompt | MenuPrompt | OtherPrompt

  /** The prompt of a menu entry: its kind, its text, and its condition unless that is trivial. */
  datatype Prompt = NoPrompt | Prompt(kind: PromptKind, text: string, condition: string, unconditional: bool)

  datatype Symbol = NoSymbol | Symbol(name: string)

  /** The lines written, with the text still unquoted. */
  datatype Line =
    | ConfigLine(name: string)
    | CommentLine(text: string)
    | MenuLine(text: string)
    | DependsLine(condition: string)
    | EndMenuLine

  class Menu {
    var list: Menu?
    var next: Menu?
    var parent: Menu?
    var sym: Symbol
    var prompt: Prompt
  }

  // ----- What is to be written -----

  /** A list of siblings: the first one with its contents, the list below it, those after it. */
  datatype Forest = Nil | Cons(node: Menu, sym: Symbol, prompt: Prompt, kids: Forest, rest: Forest)

  function Head(sym: Symbol, prompt: Prompt): seq<Line> {
    if sym.Symbol? then [ConfigLine(sym.name)]
    else if prompt.NoPrompt? then []
    else
      (match prompt.kind
       case CommentPrompt => [CommentLine(prompt.text)]
       case MenuPrompt => [MenuLine(prompt.text)]
       case OtherPrompt => [])
      + if prompt.unconditional then [] else [DependsLine(prompt.condition)]
  }

  function Tail(prompt: Prompt): seq<Line> {
    if prompt.Prompt? && prompt.kind.MenuPrompt? then [EndMenuLine] else []
  }

  /** Each node is written in full before its siblings, its children before its end. */
  function Dump(f: Forest): seq<Line> {
    match f
    case Nil => []
    case Cons(_, sym, prompt, k, r) =>
      Head(sym, prompt) + Dump(k) + (if k.Cons? then Tail(prompt) else []) + Dump(r)
  }

  function Preorder(f: Forest): seq<Menu> {
    match f
    case Nil => []
    case Cons(n, _, _, k, r) => [n] + Preorder(k) + Preorder(r)
  }

  /** The links among the nodes s spell out the forest, starting at first and below parent. */
  ghost predicate Linked(s: set<Menu>, first: Menu?, parent: Menu, f: Forest)
    reads s
  {
    match f
    case Nil => first == null
    case Cons(n, sym, prompt, k, r) =>
      && first == n && n in s && n.parent == parent && n.sym == sym && n.prompt == prompt
      && Linked(s, n.list, n, k) && Linked(s, n.next, parent, r)
  }

  function Size(f: Forest): nat {
    match f
    case Nil => 0
    case Cons(_, _, _, k, r) => 1 + Size(k) + Size(r)
  }

  // ----- What is left to be written while inside the tree -----

  /** The way up: for each open node, the siblings after it; at the top, the root. */
  datatype Way = Top(node: Menu, prompt: Prompt) | Open(node: Menu, prompt: Prompt, rest: Forest, up: Way)

  function Remaining(w: Way): seq<Line> {
    match w
    case Top(_, prompt) => Tail(prompt)
    case Open(_, prompt, r, up) => Tail(prompt) + Dump(r) + Remaining(up)
  }

  function RemainingNodes(w: Way): seq<Menu> {
    match w
    case Top(_, _) => []
    case Open(_, _, r, up) => Preorder(r) + RemainingNodes(up)
  }

  ghost predicate WayLinked(s: set<Menu>, w: Way)
    reads s
  {
    && w.node in s && w.node.prompt == w.prompt
    && match w
       case Top(root, _) => root.parent == null && root.next == null
       case Open(n, _, r, up) => n.parent == up.node && Linked(s, n.next, up.node, r) && WayLinked(s, up)
  }

  function WaySize(w: Way): nat {
    match w
    case Top(_, _) => 0
    case Open(_, _, r, up) => Size(r) + WaySize(up)
  }

  /** Everything left to be written, or visited, at the first node of cur. */
  function Left(cur: Forest, way: Way): seq<Line> {
    Dump(cur) + Remaining(way)
  }

  function LeftNodes(cur: Forest, way: Way): seq<Menu> {
    Preorder(cur) + RemainingNodes(way)
  }

  /** Inside the first node of cur. */
  function Inside(cur: Forest, way: Way): Way
    requires cur.Cons?
  {
    Open(cur.node, cur.prompt, cur.rest, way)
  }

  lemma Regroup<T>(a: seq<T>, b: seq<T>, c: seq<T>, d: seq<T>, e: seq<T>)
    ensures a + b + c + d + e == a + (b + (c + d + e))
  {
  }

  lemma Assoc<T>(a: seq<T>, b: seq<T>, c: seq<T>)
    ensures a + b + c == a + (b + c)
  {
  }

  /** After the head of a node come its children and then the way on, or the way on at once. */
  lemma {:induction false} VisitHead(out: seq<Line>, visited: seq<Menu>, cur: Forest, way: Way)
    requires cur.Cons?
    ensures cur.kids.Cons? ==>
      && out + Left(cur, way) == out + Head(cur.sym, cur.prompt) + Left(cur.kids, Inside(cur, way))
      && visited + LeftNodes(cur, way) == visited + [cur.node] + LeftNodes(cur.kids, Inside(cur, way))
    ensures cur.kids.Nil? ==>
      && out + Left(cur, way) == out + Head(cur.sym, cur.prompt) + Left(cur.rest, way)
      && visited + LeftNodes(cur, way) == visited + [cur.node] + LeftNodes(cur.rest, way)
  {
    var head, n, k, r := Head(cur.sym, cur.prompt), cur.node, cur.kids, cur.rest;
    if k.Cons? {
      Regroup(head, Dump(k), Tail(cur.prompt), Dump(r), Remaining(way));
      Assoc(out, head, Left(k, Inside(cur, way)));
      Assoc([n], Preorder(k), Preorder(r));
      Assoc([n], Preorder(k) + Preorder(r), RemainingNodes(way));
      Assoc(Preorder(k), Preorder(r), RemainingNodes(way));
      Assoc(visited, [n], LeftNodes(k, Inside(cur, way)));
    } else {
      assert Dump(k) == [] && head + [] + [] == head;
      assert Dump(cur) == head + Dump(r);
      Assoc(head, Dump(r), Remaining(way));
      Assoc(out, head, Left(r, way));
      assert Preorder(k) == [] && [n] + [] == [n];
      assert Preorder(cur) == [n] + Preorder(r);
      Assoc([n], Preorder(r), RemainingNodes(way));
      Assoc(visited, [n], LeftNodes(r, way));
    }
  }

  lemma NothingHere(way: Way)
    ensures Left(Nil, way) == Remaining(way) && LeftNodes(Nil, way) == RemainingNodes(way)
  {
  }

  /** After the last child of a node come its end and its later siblings. */
  lemma {:induction false} LeaveNode(out: seq<Line>, way: Way)
    requires way.Open?
    ensures out + Remaining(way) == out + Tail(way.prompt) + Left(way.rest, way.up)
    ensures RemainingNodes(way) == LeftNodes(way.rest, way.up)
  {
    Assoc(Tail(way.prompt), Dump(way.rest), Remaining(way.up));
    Assoc(out, Tail(way.prompt), Left(way.rest, way.up));
    assert Remaining(way) == Tail(way.prompt) + Left(way.rest, way.up);
  }

  // ----- The traversal -----

  /** Writes the tree below the root; also tells which nodes were visited, in order, and where the lines
      of each stand. */
  method ZconfDump(root: Menu, ghost s: set<Menu>, ghost f: Forest)
    returns (out: seq<Line>, ghost visited: seq<Menu>, ghost span: map<Menu, Span>)
    requires root in s && root.parent == null && root.next == null && Linked(s, root.list, root, f)
    ensures out == Dump(f) + if f.Cons? then Tail(root.prompt) else []
    ensures visited == Preorder(f) && NoDuplicates(visited)
    ensures RootLaidOut(root, span, out)
    ensures forall n | n in visited :: n in span && LaidOut(n, span, out) && n.parent in s && Followed(n, span)
    ensures multiset(out)[EndMenuLine] == Ends(visited + [root])
  {
    hide Dump, Preorder, Remaining, RemainingNodes, Left, LeftNodes, Head, Tail, NoDuplicates, LaidOut, Followed,
      RootLaidOut, Ends;
    VisitedOnce(s, root, f);
    out, visited := [], [];
    var menu := root.list;
    ghost var cur, way := f, Top(root, root.prompt);
    ghost var total := Dump(f) + if f.Cons? then Tail(root.prompt) else [];
    AtStart(f, root);
    while menu != null
      invariant menu == null ==> out == total && visited == Preorder(f)
      invariant menu != null ==>
        && Linked(s, menu, way.node, cur) && WayLinked(s, way)
        && out + Left(cur, way) == total && visited + LeftNodes(cur, way) == Preorder(f)
      decreases menu != null, Size(cur) + WaySize(way)
    {
      VisitHead(out, visited, cur, way);
      out := out + Head(menu.sym, menu.prompt);
      visited := visited + [menu];
      if menu.list != null {
        cur, way := cur.kids, Inside(cur, way);
        menu := menu.list;
      } else if menu.next != null {
        cur := cur.rest;
        menu := menu.next;
      } else {
        NothingHere(way);
        menu, cur, way, out := Climb(menu, s, way, out, total, visited, Preorder(f));
      }
    }
    span := DumpLaidOut(s, root, f, out);
  }

  lemma AtStart(f: Forest, root: Menu)
    ensures f.Nil? ==> Dump(f) == [] && Preorder(f) == []
    ensures [] + Left(f, Top(root, root.prompt)) == Dump(f) + Tail(root.prompt)
    ensures [] + LeftNodes(f, Top(root, root.prompt)) == Preorder(f)
  {
  }

  /** Goes up from the last of a list of siblings to the first ancestor that has a next sibling. */
  method Climb(start: Menu, ghost s: set<Menu>, ghost way0: Way, out0: seq<Line>, ghost total: seq<Line>,
               ghost visited: seq<Menu>, ghost all: seq<Menu>)
    returns (menu: Menu?, ghost cur: Forest, ghost way: Way, out: seq<Line>)
    requires start.parent == way0.node && WayLinked(s, way0)
    requires out0 + Remaining(way0) == total && visited + RemainingNodes(way0) == all
    ensures menu == null ==> out == total && visited == all
    ensures menu != null ==>
      && Linked(s, menu, way.node, cur) && WayLinked(s, way)
      && out + Left(cur, way) == total && visited + LeftNodes(cur, way) == all
      && Size(cur) + WaySize(way) <= WaySize(way0)
  {
    hide Dump, Preorder, Left, LeftNodes, Tail;
    cur, way, out := Nil, way0, out0;
    menu := start.parent;
    while menu != null
      invariant menu != null ==>
        && menu == way.node && WayLinked(s, way) && WaySize(way) <= WaySize(way0)
        && out + Remaining(way) == total && visited + RemainingNodes(way) == all
      invariant menu == null ==> out == total && visited == all
      decreases menu != null, way
    {
      if way.Open? {
        LeaveNode(out, way);
        NothingHere(way.up);
      }
      out := out + Tail(menu.prompt);
      if menu.next != null {
        cur, way := way.rest, way.up;
        menu := menu.next;
        return;
      }
      menu := menu.parent;
      if way.Open? {
        way := way.up;
      }
    }
  }

  // ----- Every node is visited once -----

  /** The links determine the forest. */
  lemma {:induction false} ForestUnique(s: set<Menu>, first: Menu?, parent: Menu, f: Forest, f': Forest)
    requires Linked(s, first, parent, f) && Linked(s, first, parent, f')
    ensures f == f'
  {
    if f.Cons? {
      ForestUnique(s, first.list, first, f.kids, f'.kids);
      ForestUnique(s, first.next, parent, f.rest, f'.rest);
    }
  }

  /** The part of the forest that starts at a node of it. */
  lemma {:induction false} PartAt(s: set<Menu>, first: Menu?, parent: Menu, f: Forest, x: Menu) returns (g: Forest)
    requires Linked(s, first, parent, f) && x in Preorder(f)
    ensures g.Cons? && x in s && Linked(s, x.list, x, g.kids) && Size(g) <= Size(f)
  {
    if x == f.node {
      g := f;
    } else if x in Preorder(f.kids) {
      g := PartAt(s, first.list, first, f.kids, x);
    } else {
      g := PartAt(s, first.next, parent, f.rest, x);
    }
  }

  /** No node is below itself. */
  lemma {:induction false} NotBelowItself(s: set<Menu>, n: Menu, k: Forest)
    requires n in s && Linked(s, n.list, n, k)
    ensures n !in Preorder(k)
  {
    if n in Preorder(k) {
      var g := PartAt(s, n.list, n, k, n);
      ForestUnique(s, n.list, n, k, g.kids);
    }
  }

  /** No node comes again among its later siblings. */
  lemma {:induction false} NotAgainAfter(s: set<Menu>, n: Menu, parent: Menu, f: Forest, first: Menu?, r: Forest,
      y: Menu)
    requires Linked(s, n, parent, f) && Linked(s, first, parent, r) && Size(r) < Size(f)
    requires y in Siblings(r)
    ensures y != n
  {
    if first == n {
      ForestUnique(s, n, parent, f, r);
    } else if y != r.node {
      NotAgainAfter(s, n, parent, f, first.next, r.rest, y);
    }
  }

  function Siblings(f: Forest): seq<Menu> {
    match f
    case Nil => []
    case Cons(n, _, _, _, r) => [n] + Siblings(r)
  }

  /** A chain of nodes, each the parent of the next. */
  ghost predicate Chain(s: set<Menu>, path: seq<Menu>)
    reads s
  {
    && |path| > 0 && (forall i :: 0 <= i < |path| ==> path[i] in s)
    && forall i :: 0 < i < |path| ==> path[i].parent == path[i - 1]
  }

  /** From one of the siblings a chain inside the forest leads down to each node. */
  lemma {:induction false} PathTo(s: set<Menu>, first: Menu?, parent: Menu, f: Forest, x: Menu)
      returns (path: seq<Menu>)
    requires Linked(s, first, parent, f) && x in Preorder(f)
    ensures Chain(s, path) && path[|path| - 1] == x && path[0] in Siblings(f) && path[0].parent == parent
    ensures forall i :: 0 <= i < |path| ==> path[i] in Preorder(f)
    ensures (x == f.node || x in Preorder(f.kids)) ==> path[0] == f.node
  {
    if x == f.node {
      path := [x];
    } else if x in Preorder(f.kids) {
      var below := PathTo(s, first.list, first, f.kids, x);
      path := [f.node] + below;
    } else {
      path := PathTo(s, first.next, parent, f.rest, x);
    }
  }

  /** Two chains down to the same node from siblings below a parent that is on neither start
      at the same sibling. */
  lemma {:induction false} SameStart(s: set<Menu>, parent: Menu, p: seq<Menu>, q: seq<Menu>)
    requires Chain(s, p) && Chain(s, q) && p[|p| - 1] == q[|q| - 1]
    requires p[0].parent == parent && q[0].parent == parent && parent !in p && parent !in q
    ensures p[0] == q[0]
  {
    assert |p| > 1 ==> p[|p| - 1].parent == p[|p| - 2] && p[|p| - 2] in p;
    assert |q| > 1 ==> q[|q| - 1].parent == q[|q| - 2] && q[|q| - 2] in q;
    if |p| > 1 && |q| > 1 {
      SameStart(s, parent, p[..|p| - 1], q[..|q| - 1]);
    }
  }

  ghost predicate NoDuplicates(xs: seq<Menu>) {
    forall i, j :: 0 <= i < j < |xs| ==> xs[i] != xs[j]
  }

  lemma {:induction false} Disjoint(n: Menu, a: seq<Menu>, b: seq<Menu>)
    requires NoDuplicates(a) && NoDuplicates(b) && n !in a
    requires forall x :: x in b ==> x != n && x !in a
    ensures NoDuplicates([n] + a + b)
  {
    var c := [n] + a + b;
    forall i, j | 0 <= i < j < |c| ensures c[i] != c[j] {
      assert j > |a| ==> c[j] in b;
      assert 0 < i <= |a| ==> c[i] in a;
    }
  }

  /** No node comes twice among siblings and what is below them. */
  lemma {:induction false} OnceBelow(s: set<Menu>, first: Menu?, parent: Menu, f: Forest)
    requires Linked(s, first, parent, f) && parent !in Preorder(f)
    ensures NoDuplicates(Preorder(f))
  {
    if f.Cons? {
      var n, k, r := f.node, f.kids, f.rest;
      NotBelowItself(s, n, k);
      OnceBelow(s, n.list, n, k);
      OnceBelow(s, n.next, parent, r);
      forall x | x in Preorder(r) ensures x != n && x !in Preorder(k) {
        var q := PathTo(s, n.next, parent, r, x);
        NotAgainAfter(s, n, parent, f, n.next, r, q[0]);
        if x == n || x in Preorder(k) {
          var p := PathTo(s, first, parent, f, x);
          SameStart(s, parent, p, q);
        }
      }
      Disjoint(n, Preorder(k), Preorder(r));
    }
  }

  /** Consistent links make the traversal visit every node below the root exactly once. */
  lemma {:induction false} VisitedOnce(s: set<Menu>, root: Menu, f: Forest)
    requires root in s && Linked(s, root.list, root, f)
    ensures NoDuplicates(Preorder(f)) && root !in Preorder(f)
  {
    NotBelowItself(s, root, f);
    OnceBelow(s, root.list, root, f);
  }

  // ----- Where the lines of each node stand -----

  /** The lines from one position to another. */
  datatype Span = Span(from: nat, to: nat)

  /** How many lines a node starts with. */
  function HeadLines(n: Menu): nat
    reads n
  {
    if n.sym.Symbol? then 1
    else if n.prompt.NoPrompt? then 0
    else (if n.prompt.kind.OtherPrompt? then 0 else 1) + (if n.prompt.unconditional then 0 else 1)
  }

  /** The first lines of a node: its configuration symbol, or its comment or menu and the condition. */
  ghost predicate Headed(n: Menu, from: nat, out: seq<Line>)
    reads n
  {
    var p := n.prompt;
    && from + HeadLines(n) <= |out|
    && (n.sym.Symbol? ==> out[from] == ConfigLine(n.sym.name))
    && (n.sym.NoSymbol? && p.Prompt? ==>
          && (p.kind.CommentPrompt? ==> out[from] == CommentLine(p.text))
          && (p.kind.MenuPrompt? ==> out[from] == MenuLine(p.text))
          && (!p.unconditional ==> out[from + HeadLines(n) - 1] == DependsLine(p.condition)))
  }

  /** The node is a menu, and something is below it. */
  predicate NeedsEnd(n: Menu)
    reads n
  {
    n.prompt.Prompt? && n.prompt.kind == MenuPrompt && n.list != null
  }

  /** The lines of a node: its first lines, those of the nodes below it one after the other, and then
      an end line if it is a menu. */
  ghost predicate LaidOut(n: Menu, span: map<Menu, Span>, out: seq<Line>)
    requires n in span
    reads n
  {
    var from, to := span[n].from, span[n].to;
    && Headed(n, from, out) && to <= |out|
    && (n.list == null ==> to == from + HeadLines(n))
    && (n.list != null ==> n.list in span && span[n.list].from == from + HeadLines(n))
    && (NeedsEnd(n) ==> 0 < to && out[to - 1] == EndMenuLine)
  }

  /** The next sibling of a node starts where the node ends; behind the last one its parent ends, or has
      its end line. */
  ghost predicate Followed(n: Menu, span: map<Menu, Span>)
    requires n in span
    reads n, n.parent
  {
    && (n.next != null ==> n.next in span && span[n.next].from == span[n].to)
    && (n.next == null && n.parent != null ==>
          n.parent in span && span[n.parent].to == span[n].to + if NeedsEnd(n.parent) then 1 else 0)
  }

  lemma {:induction false} HeadMeans(n: Menu, from: nat, out: seq<Line>)
    requires from + |Head(n.sym, n.prompt)| <= |out| &&
        out[from..from + |Head(n.sym, n.prompt)|] == Head(n.sym, n.prompt)
    ensures |Head(n.sym, n.prompt)| == HeadLines(n) && Headed(n, from, out)
  {
    var h := Head(n.sym, n.prompt);
    forall i | 0 <= i < |h| ensures out[from + i] == h[i] {
      assert out[from..from + |h|][i] == h[i];
    }
  }

  /** Part of the lines between two positions. */
  lemma Within(out: seq<Line>, from: nat, a: seq<Line>, b: seq<Line>)
    requires from + |a| + |b| <= |out| && out[from..from + |a| + |b|] == a + b
    ensures out[from..from + |a|] == a && out[from + |a|..from + |a| + |b|] == b
  {
    var c := out[from..from + |a| + |b|];
    assert c[..|a|] == a && c[|a|..] == b;
  }

  lemma {:induction false} SiblingParents(s: set<Menu>, first: Menu?, parent: Menu, f: Forest, x: Menu)
    requires Linked(s, first, parent, f) && x in Siblings(f)
    ensures x in s && x.parent == parent && x in Preorder(f)
  {
    if x != f.node {
      SiblingParents(s, f.node.next, parent, f.rest, x);
    }
  }

  lemma {:induction false} ListedOnce(n: Menu, a: seq<Menu>, b: seq<Menu>)
    requires NoDuplicates([n] + a + b)
    ensures NoDuplicates(a) && NoDuplicates(b) && n !in a && n !in b && forall x :: x in a ==> x !in b
  {
    var c := [n] + a + b;
    assert c[0] == n && (forall i :: 0 <= i < |a| ==> c[1 + i] == a[i]) && forall i :: 0 <= i < |b| ==>
        c[1 + |a| + i] == b[i];
  }

  function Nodes(f: Forest): set<Menu> {
    set n | n in Preorder(f)
  }

  /** What holds of the nodes of a forest whose lines stand in a row. */
  ghost predicate Rows(s: set<Menu>, f: Forest, from: nat, to: nat, span: map<Menu, Span>, out: seq<Line>)
    reads s
  {
    && span.Keys == Nodes(f) && Nodes(f) <= s
    && (forall n | n in Preorder(f) :: LaidOut(n, span, out))
    && (forall n | n in Preorder(f) && n !in Siblings(f) :: n.parent in s && Followed(n, span))
    && (forall n | n in Siblings(f) :: LastOrNext(s, n, span, to))
    && (if f.Cons? then f.node in span && span[f.node].from == from else from == to)
  }

  ghost predicate LastOrNext(s: set<Menu>, n: Menu, span: map<Menu, Span>, to: nat)
    reads s
  {
    n in s && n in span &&
    if n.next != null then n.next in span && span[n.next].from == span[n].to else span[n].to == to
  }

  ghost predicate Extends(a: map<Menu, Span>, b: map<Menu, Span>) {
    forall n | n in a :: n in b && b[n] == a[n]
  }

  // What holds of a node by some spans holds by more of them.

  lemma LaidOutMore(n: Menu, a: map<Menu, Span>, b: map<Menu, Span>, out: seq<Line>)
    requires Extends(a, b) && n in a && LaidOut(n, a, out)
    ensures n in b && LaidOut(n, b, out)
  {
    hide Headed;
  }

  lemma FollowedMore(n: Menu, a: map<Menu, Span>, b: map<Menu, Span>)
    requires Extends(a, b) && n in a && Followed(n, a)
    ensures n in b && Followed(n, b)
  {
  }

  lemma LastOrNextMore(s: set<Menu>, n: Menu, a: map<Menu, Span>, b: map<Menu, Span>, to: nat)
    requires Extends(a, b) && LastOrNext(s, n, a, to)
    ensures LastOrNext(s, n, b, to)
  {
  }

  /** The nodes below a node, with the spans of others added. */
  lemma {:induction false} KidsJoin(s: set<Menu>, n: Menu, k: Forest, body: nat, last: nat, end: nat,
      kids: map<Menu, Span>, span: map<Menu, Span>, out: seq<Line>)
    requires n in s && Linked(s, n.list, n, k) && Rows(s, k, body, last, kids, out) && Extends(kids, span)
    requires n in span && span[n].to == end == last + if NeedsEnd(n) then 1 else 0
    ensures forall x | x in Preorder(k) :: x in span && LaidOut(x, span, out) && x.parent in s && Followed(x, span)
  {
    hide LaidOut, Followed, Linked, Preorder, Siblings;
    forall x | x in Preorder(k) ensures x in span && LaidOut(x, span, out) && x.parent in s && Followed(x, span) {
      assert x in kids;
      LaidOutMore(x, kids, span, out);
      if x in Siblings(k) {
        SiblingParents(s, n.list, n, k, x);
        LastOrNextMore(s, x, kids, span, last);
        LastFollowed(s, x, span, last);
      } else {
        FollowedMore(x, kids, span);
      }
    }
  }

  lemma LastFollowed(s: set<Menu>, x: Menu, span: map<Menu, Span>, last: nat)
    requires LastOrNext(s, x, span, last)
    requires x.parent != null && x.parent in span && span[x.parent].to == last + if NeedsEnd(x.parent) then 1 else 0
    ensures Followed(x, span)
  {
  }

  /** The later siblings of a node, with the spans of others added. */
  lemma {:induction false} RestJoin(s: set<Menu>, first: Menu?, parent: Menu, r: Forest, end: nat, to: nat,
      rest: map<Menu, Span>, span: map<Menu, Span>, out: seq<Line>)
    requires Linked(s, first, parent, r) && Rows(s, r, end, to, rest, out) && Extends(rest, span)
    ensures forall x | x in Preorder(r) :: x in span && LaidOut(x, span, out)
    ensures forall x | x in Preorder(r) && x !in Siblings(r) :: x.parent in s && Followed(x, span)
    ensures forall x | x in Siblings(r) :: LastOrNext(s, x, span, to)
  {
    hide LaidOut, Followed, Linked, Preorder, Siblings, LastOrNext;
    forall x | x in Preorder(r)
      ensures x in span && LaidOut(x, span, out) && (x !in Siblings(r) ==> x.parent in s && Followed(x, span))
    {
      assert x in rest;
      LaidOutMore(x, rest, span, out);
      if x !in Siblings(r) {
        FollowedMore(x, rest, span);
      }
    }
    forall x | x in Siblings(r) ensures LastOrNext(s, x, span, to) {
      LastOrNextMore(s, x, rest, span, to);
    }
  }

  lemma SpansJoin(n: Menu, x: Span, kids: map<Menu, Span>, rest: map<Menu, Span>)
    requires n !in kids && n !in rest && kids.Keys !! rest.Keys
    ensures var span := kids + rest + map[n := x];
            Extends(kids, span) && Extends(rest, span) && span.Keys == kids.Keys + rest.Keys + {n}
  {
  }

  lemma {:induction false} RowsStart(s: set<Menu>, f: Forest, from: nat, to: nat, span: map<Menu, Span>, out: seq<Line>)
    requires Rows(s, f, from, to, span, out)
    ensures span.Keys == Nodes(f) && Nodes(f) <= s
    ensures if f.Cons? then f.node in span && span[f.node].from == from else from == to
  {
  }

  lemma {:induction false} RowsMade(s: set<Menu>, f: Forest, from: nat, to: nat, span: map<Menu, Span>, out: seq<Line>)
    requires f.Cons? && span.Keys == Nodes(f.kids) + Nodes(f.rest) + {f.node} <= s && span[f.node].from == from
    requires LaidOut(f.node, span, out) && LastOrNext(s, f.node, span, to)
    requires forall x | x in Preorder(f.kids) ::
      x in span && LaidOut(x, span, out) && x.parent in s && Followed(x, span)
    requires forall x | x in Preorder(f.rest) :: x in span && LaidOut(x, span, out)
    requires forall x | x in Preorder(f.rest) && x !in Siblings(f.rest) :: x.parent in s && Followed(x, span)
    requires forall x | x in Siblings(f.rest) :: LastOrNext(s, x, span, to)
    ensures Rows(s, f, from, to, span, out)
  {
    hide LaidOut, Followed, LastOrNext, Nodes;
    NodesJoin(f);
  }

  /** One node before its later siblings. */
  lemma {:induction false} RowsJoin(s: set<Menu>, parent: Menu, f: Forest, from: nat, to: nat, out: seq<Line>,
      kids: map<Menu, Span>, rest: map<Menu, Span>, body: nat, last: nat, end: nat)
    requires f.Cons? && Linked(s, f.node, parent, f) && NoDuplicates(Preorder(f))
    requires body == from + HeadLines(f.node) && Headed(f.node, from, out) && body <= last <= end <= |out|
    requires Rows(s, f.kids, body, last, kids, out) && Rows(s, f.rest, end, to, rest, out)
    requires end == last + if NeedsEnd(f.node) then 1 else 0
    requires NeedsEnd(f.node) ==> out[last] == EndMenuLine
    ensures Rows(s, f, from, to, kids + rest + map[f.node := Span(from, end)], out)
  {
    hide Headed, NoDuplicates, LaidOut, Followed, LastOrNext, Linked, NeedsEnd, HeadLines, Extends, Rows;
    var n, span := f.node, kids + rest + map[f.node := Span(from, end)];
    LinkedParts(s, f.node, parent, f);
    ListedOnce(n, Preorder(f.kids), Preorder(f.rest));
    RowsStart(s, f.kids, body, last, kids, out);
    RowsStart(s, f.rest, end, to, rest, out);
    SpansJoin(n, Span(from, end), kids, rest);
    KidsJoin(s, n, f.kids, body, last, end, kids, span, out);
    RestJoin(s, n.next, parent, f.rest, end, to, rest, span, out);
    FirstJoin(s, parent, f, from, to, out, kids, rest, span, body, last, end);
    RowsMade(s, f, from, to, span, out);
  }

  lemma {:induction false} LinkedParts(s: set<Menu>, first: Menu?, parent: Menu, f: Forest)
    requires f.Cons? && Linked(s, first, parent, f)
    ensures f.node == first && f.node in s && f.node.parent == parent && f.node.sym == f.sym &&
        f.node.prompt == f.prompt
    ensures Linked(s, f.node.list, f.node, f.kids) && Linked(s, f.node.next, parent, f.rest)
    ensures (f.kids.Cons? <==> f.node.list != null) && (f.rest.Cons? <==> f.node.next != null)
    ensures (f.kids.Cons? ==> f.kids.node == f.node.list) && (f.rest.Cons? ==> f.rest.node == f.node.next)
  {
  }

  lemma {:induction false} NodesJoin(f: Forest)
    requires f.Cons?
    ensures Nodes(f) == Nodes(f.kids) + Nodes(f.rest) + {f.node}
    ensures forall x :: x in Siblings(f) <==> x == f.node || x in Siblings(f.rest)
  {
  }

  lemma {:induction false} FirstJoin(s: set<Menu>, parent: Menu, f: Forest, from: nat, to: nat, out: seq<Line>,
      kids: map<Menu, Span>,
      rest: map<Menu, Span>, span: map<Menu, Span>, body: nat, last: nat, end: nat)
    requires f.Cons? && Linked(s, f.node, parent, f)
    requires body == from + HeadLines(f.node) && Headed(f.node, from, out) && body <= last <= end <= |out|
    requires Rows(s, f.kids, body, last, kids, out) && Rows(s, f.rest, end, to, rest, out)
    requires end == last + if NeedsEnd(f.node) then 1 else 0
    requires NeedsEnd(f.node) ==> out[last] == EndMenuLine
    requires Extends(kids, span) && Extends(rest, span) && f.node in span && span[f.node] == Span(from, end)
    ensures LaidOut(f.node, span, out) && LastOrNext(s, f.node, span, to)
  {
    hide Headed, Linked, Preorder, Followed, Rows, Nodes;
    LinkedParts(s, f.node, parent, f);
    RowsStart(s, f.kids, body, last, kids, out);
    RowsStart(s, f.rest, end, to, rest, out);
  }

  lemma NothingRows(s: set<Menu>, from: nat, out: seq<Line>)
    ensures Rows(s, Nil, from, from, map[], out)
  {
  }

  lemma EndMeans(n: Menu, k: Forest)
    requires (k.Cons? <==> n.list != null)
    ensures (if k.Cons? then Tail(n.prompt) else []) == if NeedsEnd(n) then [EndMenuLine] else []
  {
  }

  /** The lines of the first node, of those below it, its end and those of its later siblings. */
  lemma {:induction false} DumpParts(f: Forest, from: nat, out: seq<Line>)
    requires f.Cons? && from + |Dump(f)| <= |out| && out[from..from + |Dump(f)|] == Dump(f)
    ensures var h, k, r := |Head(f.sym, f.prompt)|, |Dump(f.kids)|, |Dump(f.rest)|;
            var t := if f.kids.Cons? then |Tail(f.prompt)| else 0;
            && |Dump(f)| == h + k + t + r
            && out[from..from + h] == Head(f.sym, f.prompt) && out[from + h..from + h + k] == Dump(f.kids)
            && (t > 0 ==> out[from + h + k] == EndMenuLine)
            && out[from + h + k + t..from + h + k + t + r] == Dump(f.rest)
  {
    hide Head;
    FourParts(out, from, Head(f.sym, f.prompt), Dump(f.kids), if f.kids.Cons? then Tail(f.prompt)
        else [], Dump(f.rest));
  }

  lemma {:induction false} FourParts(out: seq<Line>, from: nat, a: seq<Line>, b: seq<Line>, c: seq<Line>, d: seq<Line>)
    requires from + |a| + |b| + |c| + |d| <= |out|
    requires out[from..from + |a| + |b| + |c| + |d|] == a + b + c + d
    ensures out[from..from + |a|] == a && out[from + |a|..from + |a| + |b|] == b
    ensures out[from + |a| + |b|..from + |a| + |b| + |c|] == c
    ensures c != [] ==> out[from + |a| + |b|] == c[0]
    ensures out[from + |a| + |b| + |c|..from + |a| + |b| + |c| + |d|] == d
  {
    assert a + b + c + d == a + (b + c + d) && b + c + d == b + (c + d);
    Within(out, from, a, b + c + d);
    Within(out, from + |a|, b, c + d);
    Within(out, from + |a| + |b|, c, d);
    assert c != [] ==> out[from + |a| + |b|..from + |a| + |b| + |c|][0] == c[0];
  }

  lemma {:induction false} FindRows(s: set<Menu>, first: Menu?, parent: Menu, f: Forest, from: nat, out: seq<Line>)
    returns (span: map<Menu, Span>)
    requires Linked(s, first, parent, f) && NoDuplicates(Preorder(f))
    requires from + |Dump(f)| <= |out| && out[from..from + |Dump(f)|] == Dump(f)
    ensures Rows(s, f, from, from + |Dump(f)|, span, out)
  {
    hide Rows, LaidOut, NeedsEnd, Headed, Head, HeadLines, NoDuplicates, Linked, Dump, Tail;
    if f.Nil? {
      NothingDumped();
      span := map[];
      NothingRows(s, from, out);
    } else {
      var n := f.node;
      LinkedParts(s, first, parent, f);
      ListedOnce(n, Preorder(f.kids), Preorder(f.rest));
      DumpParts(f, from, out);
      HeadMeans(n, from, out);
      EndMeans(n, f.kids);
      var body := from + HeadLines(n);
      var last := body + |Dump(f.kids)|;
      var end := last + if NeedsEnd(n) then 1 else 0;
      var kids := FindRows(s, n.list, n, f.kids, body, out);
      var rest := FindRows(s, n.next, parent, f.rest, end, out);
      RowsJoin(s, parent, f, from, from + |Dump(f)|, out, kids, rest, body, last, end);
      span := kids + rest + map[n := Span(from, end)];
    }
  }

  lemma LinkedStart(s: set<Menu>, first: Menu?, parent: Menu, f: Forest)
    requires Linked(s, first, parent, f)
    ensures (f.Cons? <==> first != null) && (f.Cons? ==> f.node == first)
  {
  }

  lemma NothingDumped()
    ensures Dump(Nil) == []
  {
  }

  // ----- The whole dump -----

  /** How many of the nodes need an end line. */
  function Ends(ns: seq<Menu>): nat
    reads ns
  {
    if ns == [] then 0 else Ends(ns[..|ns| - 1]) + if NeedsEnd(ns[|ns| - 1]) then 1 else 0
  }

  lemma {:induction false} EndsConcat(a: seq<Menu>, b: seq<Menu>)
    ensures Ends(a + b) == Ends(a) + Ends(b)
  {
    if b == [] {
      assert a + b == a;
    } else {
      assert (a + b)[..|a + b| - 1] == a + b[..|b| - 1];
      EndsConcat(a, b[..|b| - 1]);
    }
  }

  /** There are as many end lines as menus with something below them. */
  lemma {:induction false} EndsCounted(s: set<Menu>, first: Menu?, parent: Menu, f: Forest)
    requires Linked(s, first, parent, f)
    ensures multiset(Dump(f))[EndMenuLine] == Ends(Preorder(f))
  {
    hide NeedsEnd, Linked, Head, Tail, Ends;
    NoEnds();
    if f.Cons? {
      var n := f.node;
      LinkedParts(s, first, parent, f);
      EndsCounted(s, n.list, n, f.kids);
      EndsCounted(s, n.next, parent, f.rest);
      EndMeans(n, f.kids);
      NoEndInHead(f.sym, f.prompt);
      EndsInParts(Head(f.sym, f.prompt), Dump(f.kids), if f.kids.Cons? then Tail(f.prompt) else [], Dump(f.rest));
      EndsConcat([n] + Preorder(f.kids), Preorder(f.rest));
      EndsConcat([n], Preorder(f.kids));
      EndsOne(n);
    }
  }

  lemma NoEnds()
    ensures Ends([]) == 0 && Preorder(Nil) == [] && Dump(Nil) == []
  {
  }

  lemma EndsOne(n: Menu)
    ensures Ends([n]) == if NeedsEnd(n) then 1 else 0
  {
    hide NeedsEnd;
    assert [n][..0] == [];
  }

  lemma EndsInParts(a: seq<Line>, b: seq<Line>, c: seq<Line>, d: seq<Line>)
    ensures multiset(a + b + c + d)[EndMenuLine] ==
            multiset(a)[EndMenuLine] + multiset(b)[EndMenuLine] + multiset(c)[EndMenuLine] + multiset(d)[EndMenuLine]
  {
  }

  lemma NoEndInHead(sym: Symbol, prompt: Prompt)
    ensures multiset(Head(sym, prompt))[EndMenuLine] == 0
  {
    assert EndMenuLine !in Head(sym, prompt);
  }

  /** The root has no first lines; its lines are all lines, the last of them its end line if it needs one. */
  ghost predicate RootLaidOut(root: Menu, span: map<Menu, Span>, out: seq<Line>)
    reads root
  {
    && root in span && span[root] == Span(0, |out|)
    && (root.list == null ==> out == [])
    && (root.list != null ==> root.list in span && span[root.list].from == 0)
    && (NeedsEnd(root) ==> out != [] && out[|out| - 1] == EndMenuLine)
  }

  /** Where the lines of every node stand. */
  lemma {:induction false} DumpLaidOut(s: set<Menu>, root: Menu, f: Forest, out: seq<Line>)
    returns (span: map<Menu, Span>)
    requires root in s && root.parent == null && root.next == null && Linked(s, root.list, root, f)
    requires out == Dump(f) + if f.Cons? then Tail(root.prompt) else []
    ensures RootLaidOut(root, span, out)
    ensures forall n | n in Preorder(f) :: n in span && LaidOut(n, span, out) && n.parent in s && Followed(n, span)
    ensures multiset(out)[EndMenuLine] == Ends(Preorder(f) + [root])
  {
    hide Dump, Preorder, Linked, LaidOut, Followed, NoDuplicates, Headed, LastOrNext;
    VisitedOnce(s, root, f);
    assert out[0..0 + |Dump(f)|] == Dump(f);
    var rows := FindRows(s, root.list, root, f, 0, out);
    span := rows[root := Span(0, |out|)];
    assert Extends(rows, span) && root !in rows;
    LinkedStart(s, root.list, root, f);
    EndMeans(root, f);
    EndsCounted(s, root.list, root, f);
    EndsConcat(Preorder(f), [root]);
    EndsOne(root);
    NothingDumped();
    KidsJoin(s, root, f, 0, |Dump(f)|, |out|, rows, span, out);
  }
}
