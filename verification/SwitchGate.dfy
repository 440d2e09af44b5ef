/** The gates that hooked kernel functions pass through, and their nesting: a page fault is
    handled inside a gate, and its handler sets page-table entries through gates of its own. */
module SwitchGate {

  /** A call of a hooked function.  A page fault carries the calls its handler makes, once
      inside the gate (kernel addresses only) and once after it. */
  datatype Call =
    | SetEntry(addr: nat, value: nat)
    | WriteCr0(val: bv64)
    | WriteCr4(val: bv64)
    | WriteCr3(root: nat)
    | PageFault(kernel: bool, inside: Calls, after: Calls)

  datatype Calls = Nil | Cons(first: Call, rest: Calls)

  /** Control registers, the interrupt flag, the flags pushed on the stack (top first), the
      memory that holds table entries, and the root saved by the gates. */
  datatype State = State(
    cr0: bv64, cr3: nat, cr4: bv64, interrupts: bool, pushed: seq<bool>, mem: map<nat, nat>, oldcr3: nat)

  // ----- What the code does -----

  function Enter(st: State): State {
    st.(oldcr3 := st.cr3, pushed := [st.interrupts] + st.pushed, interrupts := false)
  }

  function Leave(st: State): State
    requires st.pushed != []
  {
    st.(interrupts := st.pushed[0], pushed := st.pushed[1..], cr3 := st.oldcr3)
  }

  /** The write of CR0 always sets bit 16, write protection. */
  function Protected(val: bv64): bv64 {
    val | 0x1_0000
  }

  function Exec(c: Call, st: State): (r: State)
    ensures |r.pushed| == |st.pushed|
  {
    match c
    case SetEntry(addr, value) =>
      var st' := Leave(Enter(st).(mem := st.mem[addr := value]));
      st'.(mem := st'.mem[addr := value])
    case WriteCr0(val) => Leave(Enter(st).(cr0 := Protected(val)))
    case WriteCr4(val) => Leave(Enter(st).(cr4 := val))
    case WriteCr3(root) => Leave(Enter(st).(cr3 := root)).(cr3 := root)
    case PageFault(kernel, inside, after) =>
      ExecAll(after, if kernel then Leave(ExecAll(inside, Enter(st))) else st)
  }

  function ExecAll(cs: Calls, st: State): (r: State)
    ensures |r.pushed| == |st.pushed|
  {
    match cs
    case Nil => st
    case Cons(c, rest) => ExecAll(rest, Exec(c, st))
  }

  class Cpu {
    var st: State
    /** The address of the root page in use, for the gate; only written. */
    var gateRoot: nat

    constructor (st: State)
      ensures this.st == st
    {
      this.st, gateRoot := st, 0;
    }

    method DisableIntFirst()
      modifies `st
      ensures st == old(st).(pushed := [old(st).interrupts] + old(st).pushed, interrupts := false)
    {
      st := st.(pushed := [st.interrupts] + st.pushed);
      st := st.(interrupts := false);
    }

    method DisableIntSecond()
      modifies `st
      ensures st == old(st).(interrupts := false)
    {
      st := st.(interrupts := false);
    }

    method EnableInt()
      requires st.pushed != []
      modifies `st
      ensures st == old(st).(interrupts := old(st).pushed[0], pushed := old(st).pushed[1..])
    {
      st := st.(interrupts := true);
      st := st.(interrupts := st.pushed[0], pushed := st.pushed[1..]);
    }

    method WriteRoot(root: nat)
      modifies `st
      ensures st == old(st).(cr3 := root)
    {
      st := st.(cr3 := root);
    }

    method EnterGate()
      modifies this
      ensures st == Enter(old(st))
    {
      gateRoot := st.cr3;
      st := st.(oldcr3 := st.cr3);
      DisableIntFirst();
      WriteRoot(gateRoot);
      DisableIntSecond();
    }

    method LeaveGate()
      requires st.pushed != []
      modifies this
      ensures st == Leave(old(st))
    {
      EnableInt();
      WriteRoot(st.oldcr3);
    }

    method NativeSetEntry(addr: nat, value: nat)
      modifies `st
      ensures st == old(st).(mem := old(st).mem[addr := value])
    {
      st := st.(mem := st.mem[addr := value]);
    }

    method NativeWriteCr0(val: bv64)
      modifies `st
      ensures st == old(st).(cr0 := Protected(val))
    {
      var v := val | 0x1_0000;
      if v == st.cr0 {
        return;
      }
      st := st.(cr0 := v);
    }

    method NativeWriteCr4(val: bv64)
      modifies `st
      ensures st == old(st).(cr4 := val)
    {
      if val == st.cr4 {
        return;
      }
      st := st.(cr4 := val);
    }

    method Execute(c: Call)
      modifies this
      ensures st == Exec(c, old(st))
      decreases c
    {
      match c
      case SetEntry(addr, value) =>
        EnterGate();
        NativeSetEntry(addr, value);
        LeaveGate();
        NativeSetEntry(addr, value);
      case WriteCr0(val) =>
        EnterGate();
        NativeWriteCr0(val);
        LeaveGate();
      case WriteCr4(val) =>
        EnterGate();
        NativeWriteCr4(val);
        LeaveGate();
      case WriteCr3(root) =>
        EnterGate();
        WriteRoot(root);
        LeaveGate();
        WriteRoot(root);
      case PageFault(kernel, inside, after) =>
        if kernel {
          EnterGate();
          ExecuteAll(inside);
          LeaveGate();
        }
        ExecuteAll(after);
    }

    method ExecuteAll(cs: Calls)
      modifies this
      ensures st == ExecAll(cs, old(st))
      decreases cs
    {
      match cs
      case Nil =>
      case Cons(c, rest) =>
        Execute(c);
        ExecuteAll(rest);
    }
  }

  // ----- What it amounts to -----

  /** The same calls without any gate: each effect once. */
  function Plain(c: Call, st: State): State {
    match c
    case SetEntry(addr, value) => st.(mem := st.mem[addr := value])
    case WriteCr0(val) => st.(cr0 := Protected(val))
    case WriteCr4(val) => st.(cr4 := val)
    case WriteCr3(root) => st.(cr3 := root)
    case PageFault(kernel, inside, after) => PlainAll(after, if kernel then PlainAll(inside, st) else st)
  }

  function PlainAll(cs: Calls, st: State): State {
    match cs
    case Nil => st
    case Cons(c, rest) => PlainAll(rest, Plain(c, st))
  }

  predicate KeepsRoot(c: Call) {
    match c
    case SetEntry(_, _) => true
    case WriteCr0(_) => true
    case WriteCr4(_) => true
    case WriteCr3(_) => false
    case PageFault(_, inside, after) => KeepRoot(inside) && KeepRoot(after)
  }

  predicate KeepRoot(cs: Calls) {
    cs.Cons? ==> KeepsRoot(cs.first) && KeepRoot(cs.rest)
  }

  lemma {:induction false} PlainKeepsRoot(c: Call, st: State)
    ensures Plain(c, st).interrupts == st.interrupts && Plain(c, st).pushed == st.pushed
    ensures Plain(c, st).oldcr3 == st.oldcr3
    ensures KeepsRoot(c) ==> Plain(c, st).cr3 == st.cr3
    decreases c
  {
    match c
    case SetEntry(_, _) =>
    case WriteCr0(_) =>
    case WriteCr4(_) =>
    case WriteCr3(_) =>
    case PageFault(kernel, inside, after) =>
      PlainAllKeepRoot(inside, st);
      PlainAllKeepRoot(after, if kernel then PlainAll(inside, st) else st);
  }

  lemma {:induction false} PlainAllKeepRoot(cs: Calls, st: State)
    ensures PlainAll(cs, st).interrupts == st.interrupts && PlainAll(cs, st).pushed == st.pushed
    ensures PlainAll(cs, st).oldcr3 == st.oldcr3
    ensures KeepRoot(cs) ==> PlainAll(cs, st).cr3 == st.cr3
    decreases cs
  {
    if cs.Cons? {
      PlainKeepsRoot(cs.first, st);
      PlainAllKeepRoot(cs.rest, Plain(cs.first, st));
    }
  }

  /** Memory and the registers other than the roots end up alike. */
  predicate SameEffect(a: State, b: State) {
    a.cr0 == b.cr0 && a.cr4 == b.cr4 && a.mem == b.mem
  }

  lemma {:induction false} PlainEffect(c: Call, a: State, b: State)
    requires SameEffect(a, b)
    ensures SameEffect(Plain(c, a), Plain(c, b))
    decreases c
  {
    if c.PageFault? {
      PlainEffectAll(c.inside, a, b);
      PlainEffectAll(c.after, if c.kernel then PlainAll(c.inside, a) else a, if c.kernel then PlainAll(c.inside, b)
          else b);
    }
  }

  lemma {:induction false} PlainEffectAll(cs: Calls, a: State, b: State)
    requires SameEffect(a, b)
    ensures SameEffect(PlainAll(cs, a), PlainAll(cs, b))
    decreases cs
  {
    if cs.Cons? {
      PlainEffect(cs.first, a, b);
      PlainEffectAll(cs.rest, Plain(cs.first, a), Plain(cs.first, b));
    }
  }

  /** Interrupt flag and pushed flags come out as they went in, and every other effect is that
      of the ungated calls. */
  lemma {:induction false} FlagsRestored(c: Call, st: State)
    ensures Exec(c, st).interrupts == st.interrupts && Exec(c, st).pushed == st.pushed
    ensures SameEffect(Exec(c, st), Plain(c, st))
    decreases c
  {
    match c
    case SetEntry(addr, value) =>
      assert st.mem[addr := value][addr := value] == st.mem[addr := value];
    case WriteCr0(_) =>
    case WriteCr4(_) =>
    case WriteCr3(_) =>
    case PageFault(kernel, inside, after) =>
      FlagsRestoredAll(inside, Enter(st));
      PlainEffectAll(inside, Enter(st), st);
      var st' := if kernel then Leave(ExecAll(inside, Enter(st))) else st;
      FlagsRestoredAll(after, st');
      PlainEffectAll(after, st', if kernel then PlainAll(inside, st) else st);
  }

  lemma {:induction false} FlagsRestoredAll(cs: Calls, st: State)
    ensures ExecAll(cs, st).interrupts == st.interrupts && ExecAll(cs, st).pushed == st.pushed
    ensures SameEffect(ExecAll(cs, st), PlainAll(cs, st))
    decreases cs
  {
    if cs.Cons? {
      FlagsRestored(cs.first, st);
      FlagsRestoredAll(cs.rest, Exec(cs.first, st));
      PlainEffectAll(cs.rest, Exec(cs.first, st), Plain(cs.first, st));
    }
  }

  /** A gate leaves the root it found, and on the way saves no other one, as long as no call
      inside it changes the root. */
  lemma {:induction false} RootRestored(c: Call, st: State)
    requires KeepsRoot(c)
    ensures Exec(c, st).cr3 == st.cr3
    ensures st.oldcr3 == st.cr3 ==> Exec(c, st).oldcr3 == st.cr3
    decreases c
  {
    if c.PageFault? {
      RootRestoredAll(c.inside, Enter(st));
      RootRestoredAll(c.after, if c.kernel then Leave(ExecAll(c.inside, Enter(st))) else st);
    }
  }

  lemma {:induction false} RootRestoredAll(cs: Calls, st: State)
    requires KeepRoot(cs)
    ensures ExecAll(cs, st).cr3 == st.cr3
    ensures st.oldcr3 == st.cr3 ==> ExecAll(cs, st).oldcr3 == st.cr3
    decreases cs
  {
    if cs.Cons? {
      RootRestored(cs.first, st);
      RootRestoredAll(cs.rest, Exec(cs.first, st));
    }
  }

  /** Nested gates are transparent: all the calls together do what they do without gates, and
      only the saved root may differ. */
  lemma {:induction false} GatesTransparent(cs: Calls, st: State)
    requires KeepRoot(cs)
    ensures ExecAll(cs, st) == PlainAll(cs, st).(oldcr3 := ExecAll(cs, st).oldcr3)
    ensures ExecAll(cs, st).cr3 == st.cr3
  {
    FlagsRestoredAll(cs, st);
    RootRestoredAll(cs, st);
    PlainAllKeepRoot(cs, st);
  }

  /** Inside another gate a write of the root is lost if it comes last, and takes effect if a
      further gate is passed after it. */
  lemma {:induction false} RootWriteInsideGate(st: State, root: nat)
    ensures Exec(PageFault(true, Cons(WriteCr3(root), Nil), Nil), st).cr3 == st.cr3
    ensures Exec(PageFault(true, Cons(WriteCr3(root), Cons(SetEntry(0, 0), Nil)), Nil), st).cr3 == root
  {
    var inner := Exec(WriteCr3(root), Enter(st));
    assert ExecAll(Cons(WriteCr3(root), Nil), Enter(st)) == inner;
    assert inner.oldcr3 == st.cr3 && inner.cr3 == root;
    var next := Exec(SetEntry(0, 0), inner);
    assert ExecAll(Cons(SetEntry(0, 0), Nil), inner) == next;
    assert next.oldcr3 == root;
  }

  // ----- What is left by history -----

  /** Inside a gate interrupts are off, and the flag found at its entry is on top of the stack. */
  lemma {:induction false} GateIsQuiet(cs: Calls, st: State)
    ensures var r := ExecAll(cs, Enter(st)); !r.interrupts && r.pushed == [st.interrupts] + st.pushed
  {
    FlagsRestoredAll(cs, Enter(st));
  }

  /** The writes that a call makes, in order: those inside the gate of a page fault only for kernel
      addresses. */
  function Performed(c: Call): seq<Call> {
    match c
    case PageFault(kernel, inside, after) => (if kernel then AllPerformed(inside) else []) + AllPerformed(after)
    case _ => [c]
  }

  function AllPerformed(cs: Calls): seq<Call> {
    match cs
    case Nil => []
    case Cons(c, rest) => Performed(c) + AllPerformed(rest)
  }

  /** These writes, one after the other. */
  function InOrder(ps: seq<Call>, st: State): State {
    if ps == [] then st else Plain(ps[|ps| - 1], InOrder(ps[..|ps| - 1], st))
  }

  lemma {:induction false} InOrderConcat(ps: seq<Call>, qs: seq<Call>, st: State)
    ensures InOrder(ps + qs, st) == InOrder(qs, InOrder(ps, st))
  {
    if qs == [] {
      assert ps + qs == ps;
    } else {
      assert (ps + qs)[..|ps + qs| - 1] == ps + qs[..|qs| - 1];
      InOrderConcat(ps, qs[..|qs| - 1], st);
    }
  }

  lemma {:induction false} PlainInOrder(c: Call, st: State)
    ensures Plain(c, st) == InOrder(Performed(c), st)
    decreases c
  {
    if c.PageFault? {
      var ps := if c.kernel then AllPerformed(c.inside) else [];
      PlainAllInOrder(c.inside, st);
      PlainAllInOrder(c.after, if c.kernel then PlainAll(c.inside, st) else st);
      InOrderConcat(ps, AllPerformed(c.after), st);
    } else {
      assert [c][..0] == [];
    }
  }

  lemma {:induction false} PlainAllInOrder(cs: Calls, st: State)
    ensures PlainAll(cs, st) == InOrder(AllPerformed(cs), st)
    decreases cs
  {
    if cs.Cons? {
      PlainInOrder(cs.first, st);
      PlainAllInOrder(cs.rest, Plain(cs.first, st));
      InOrderConcat(Performed(cs.first), AllPerformed(cs.rest), st);
    }
  }

  /** A place that is written: a control register, or the memory of a table entry. */
  datatype Place = Cr0 | Cr4 | EntryAt(addr: nat)

  predicate WritesTo(c: Call, place: Place) {
    match place
    case Cr0 => c.WriteCr0?
    case Cr4 => c.WriteCr4?
    case EntryAt(addr) => c.SetEntry? && c.addr == addr
  }

  /** Bit 16 is set and the other bits are those of the value. */
  predicate IsProtected(cr0: bv64, val: bv64) {
    cr0 & 0x1_0000 == 0x1_0000 && cr0 & 0xffff_ffff_fffe_ffff == val & 0xffff_ffff_fffe_ffff
  }

  /** The place holds what the call writes, but that CR0 is protected. */
  predicate Holds(st: State, place: Place, c: Call)
    requires WritesTo(c, place)
  {
    match place
    case Cr0 => IsProtected(st.cr0, c.val)
    case Cr4 => st.cr4 == c.val
    case EntryAt(addr) => addr in st.mem && st.mem[addr] == c.value
  }

  predicate SamePlace(a: State, b: State, place: Place) {
    match place
    case Cr0 => a.cr0 == b.cr0
    case Cr4 => a.cr4 == b.cr4
    case EntryAt(addr) => (addr in a.mem <==> addr in b.mem) && (addr in a.mem ==> a.mem[addr] == b.mem[addr])
  }

  /** Call i is the last one that writes to the place. */
  predicate LastTo(ps: seq<Call>, place: Place, i: nat) {
    i < |ps| && WritesTo(ps[i], place) && forall j :: i < j < |ps| ==> !WritesTo(ps[j], place)
  }

  lemma {:induction false} OneWrite(c: Call, st: State, place: Place)
    requires !c.PageFault?
    ensures if WritesTo(c, place) then Holds(Plain(c, st), place, c) else SamePlace(Plain(c, st), st, place)
  {
    hide IsProtected, Protected;
    if c.WriteCr0? {
      ProtectedMeans(c.val);
    }
  }

  lemma ProtectedMeans(val: bv64)
    ensures IsProtected(Protected(val), val)
  {
  }

  lemma {:induction false} SamePlaceHolds(a: State, b: State, place: Place, c: Call)
    requires SamePlace(a, b, place) && WritesTo(c, place) && Holds(b, place, c)
    ensures Holds(a, place, c)
  {
    hide IsProtected;
  }

  lemma {:induction false} InOrderLeaves(ps: seq<Call>, st: State, place: Place)
    requires forall c :: c in ps ==> !c.PageFault?
    ensures forall i: nat :: LastTo(ps, place, i) ==> Holds(InOrder(ps, st), place, ps[i])
    ensures (forall c :: c in ps ==> !WritesTo(c, place)) ==> SamePlace(InOrder(ps, st), st, place)
  {
    hide Holds, Plain, WritesTo;
    if ps != [] {
      var qs, c := ps[..|ps| - 1], ps[|ps| - 1];
      assert ps == qs + [c] && c in ps;
      InOrderLeaves(qs, st, place);
      OneWrite(c, InOrder(qs, st), place);
      forall i: nat | LastTo(ps, place, i) ensures Holds(InOrder(ps, st), place, ps[i]) {
        if i < |qs| {
          assert LastTo(qs, place, i) && !WritesTo(ps[|qs|], place);
          SamePlaceHolds(InOrder(ps, st), InOrder(qs, st), place, ps[i]);
        }
      }
    }
  }

  lemma {:induction false} NoFaultsPerformed(c: Call)
    ensures forall p :: p in Performed(c) ==> !p.PageFault?
    decreases c
  {
    if c.PageFault? {
      NoFaultsAllPerformed(c.inside);
      NoFaultsAllPerformed(c.after);
    }
  }

  lemma {:induction false} NoFaultsAllPerformed(cs: Calls)
    ensures forall p :: p in AllPerformed(cs) ==> !p.PageFault?
    decreases cs
  {
    if cs.Cons? {
      NoFaultsPerformed(cs.first);
      NoFaultsAllPerformed(cs.rest);
    }
  }

  /** After any nesting of calls the control registers and every table entry hold what the last write to
      them left there, and bit 16 of CR0 is set once CR0 has been written. */
  lemma {:induction false} LastWriteWins(cs: Calls, st: State, place: Place)
    ensures var ps := AllPerformed(cs);
            && (forall i: nat :: LastTo(ps, place, i) ==> Holds(ExecAll(cs, st), place, ps[i]))
            && ((forall c :: c in ps ==> !WritesTo(c, place)) ==> SamePlace(ExecAll(cs, st), st, place))
  {
    hide WritesTo, Holds, SamePlace, SameEffect, ExecAll, PlainAll, InOrder, AllPerformed;
    FlagsRestoredAll(cs, st);
    PlainAllInOrder(cs, st);
    NoFaultsAllPerformed(cs);
    InOrderLeaves(AllPerformed(cs), st, place);
    forall c | WritesTo(c, place) && Holds(PlainAll(cs, st), place, c) ensures Holds(ExecAll(cs, st), place, c) {
      EffectHolds(ExecAll(cs, st), PlainAll(cs, st), place, c);
    }
    EffectSame(ExecAll(cs, st), PlainAll(cs, st), st, place);
  }

  lemma {:induction false} EffectHolds(a: State, b: State, place: Place, c: Call)
    requires SameEffect(a, b) && WritesTo(c, place) && Holds(b, place, c)
    ensures Holds(a, place, c)
  {
    hide IsProtected;
  }

  lemma {:induction false} EffectSame(a: State, b: State, st: State, place: Place)
    requires SameEffect(a, b)
    ensures SamePlace(a, st, place) == SamePlace(b, st, place)
  {
  }

  // ----- Exactly when a gate restores the root -----

  /** A root known without running anything: the one at the start, or one written by a call. */
  datatype Root = Initial | Written(root: nat)

  function Value(r: Root, initial: nat): nat {
    if r.Initial? then initial else r.root
  }

  /** The root in use and the root saved after a call, from those before it. */
  function Trace(c: Call, cur: Root, saved: Root): (Root, Root) {
    match c
    case SetEntry(_, _) => (cur, cur)
    case WriteCr0(_) => (cur, cur)
    case WriteCr4(_) => (cur, cur)
    case WriteCr3(root) => (Written(root), cur)
    case PageFault(kernel, inside, after) =>
      var left := TraceAll(inside, cur, cur).1;
      if kernel then TraceAll(after, left, left) else TraceAll(after, cur, saved)
  }

  function TraceAll(cs: Calls, cur: Root, saved: Root): (Root, Root) {
    match cs
    case Nil => (cur, saved)
    case Cons(c, rest) => var (cur', saved') := Trace(c, cur, saved); TraceAll(rest, cur', saved')
  }

  lemma {:induction false} TraceMeans(c: Call, cur: Root, saved: Root, initial: nat, st: State)
    requires st.cr3 == Value(cur, initial) && st.oldcr3 == Value(saved, initial)
    ensures Exec(c, st).cr3 == Value(Trace(c, cur, saved).0, initial)
    ensures Exec(c, st).oldcr3 == Value(Trace(c, cur, saved).1, initial)
    decreases c
  {
    if c.PageFault? {
      TraceAllMeans(c.inside, cur, cur, initial, Enter(st));
      if c.kernel {
        var left := TraceAll(c.inside, cur, cur).1;
        TraceAllMeans(c.after, left, left, initial, Leave(ExecAll(c.inside, Enter(st))));
      } else {
        TraceAllMeans(c.after, cur, saved, initial, st);
      }
    }
  }

  lemma {:induction false} TraceAllMeans(cs: Calls, cur: Root, saved: Root, initial: nat, st: State)
    requires st.cr3 == Value(cur, initial) && st.oldcr3 == Value(saved, initial)
    ensures ExecAll(cs, st).cr3 == Value(TraceAll(cs, cur, saved).0, initial)
    ensures ExecAll(cs, st).oldcr3 == Value(TraceAll(cs, cur, saved).1, initial)
    decreases cs
  {
    if cs.Cons? {
      TraceMeans(cs.first, cur, saved, initial, st);
      var (cur', saved') := Trace(cs.first, cur, saved);
      TraceAllMeans(cs.rest, cur', saved', initial, Exec(cs.first, st));
    }
  }

  /** A gate leaves the root it found, whatever that is, if and only if the last gate passed
      inside it was entered before any write of the root took hold. */
  lemma {:induction false} GateRestoresRoot(inside: Calls)
    ensures (forall st: State :: Exec(PageFault(true, inside, Nil), st).cr3 == st.cr3)
            <==> TraceAll(inside, Initial, Initial).1 == Initial
  {
    var left := TraceAll(inside, Initial, Initial).1;
    forall st: State ensures Exec(PageFault(true, inside, Nil), st).cr3 == Value(left, st.cr3) {
      TraceAllMeans(inside, Initial, Initial, st.cr3, Enter(st));
    }
    if left.Written? {
      var st := State(0, left.root + 1, 0, false, [], map[], 0);
      assert Exec(PageFault(true, inside, Nil), st).cr3 != st.cr3;
    }
  }
}
