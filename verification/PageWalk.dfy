/** The walk that looks an address up in a live paging tree and, on the way down, makes every
    entry it passes writable. */
module PageWalk {
  import opened PageWords
  import opened PageTables
  import opened PhysicalMemory

  // ----- Addresses -----

  /** The five fields of a virtual address, as the masks and shifts leave them. */
  datatype Fields = Fields(pgd: bv64, pud: bv64, pmd: bv64, pte: bv64, offset: bv64)

  function Split(address: bv64): Fields {
    Fields(
      (address & 0x0000_ff80_0000_0000) >> 39,
      (address & 0x0000_007f_c000_0000) >> 30,
      (address & 0x0000_0000_3fe0_0000) >> 21,
      (address & 0x0000_0000_001f_f000) >> 12,
      address & 0x0000_0000_0000_0fff)
  }

  /** The fields are in range and hold exactly the low 48 bits of the address. */
  lemma SplitRebuilds(address: bv64)
    ensures var s := Split(address);
            s.pgd < 512 && s.pud < 512 && s.pmd < 512 && s.pte < 512 && s.offset < 4096
    ensures var s := Split(address);
            (s.pgd << 39) + (s.pud << 30) + (s.pmd << 21) + (s.pte << 12) + s.offset == address & 0xffff_ffff_ffff
  {
  }

  function AsIndex(x: bv64): Index
    requires x < 512
  {
    x as bv9 as nat
  }

  function Indices(address: bv64): Address {
    SplitRebuilds(address);
    var s := Split(address);
    Address(AsIndex(s.pgd), AsIndex(s.pud), AsIndex(s.pmd), AsIndex(s.pte))
  }

  lemma BitsBack(x: bv64)
    requires x < 512
    ensures AsIndex(x) as bv9 as bv64 == x
  {
    NineBits(x as bv9);
    assert x as bv9 as bv64 == x;
  }

  lemma NineBits(y: bv9)
    ensures y as nat as bv9 == y
  {
  }

  /** The indices and the offset make up the low 48 bits of the address, nine bits to a level. */
  lemma {:induction false} IndicesRebuild(address: bv64)
    ensures var a := Indices(address);
            (a.pgd as bv9 as bv64 << 39) + (a.pud as bv9 as bv64 << 30) + (a.pmd as bv9 as bv64 << 21) +
            (a.pte as bv9 as bv64 << 12) + (address & 0xfff) == address & 0xffff_ffff_ffff
  {
    hide AsIndex, Split;
    SplitRebuilds(address);
    var s := Split(address);
    BitsBack(s.pgd);
    BitsBack(s.pud);
    BitsBack(s.pmd);
    BitsBack(s.pte);
    SplitOffset(address);
  }

  lemma SplitOffset(address: bv64)
    ensures Split(address).offset == address & 0xfff
  {
  }

  // ----- Memory up to the writable bit -----

  ghost predicate SameMemory(m: Memory, m': Memory) {
    m.Keys == m'.Keys && forall f, i: Index :: f in m ==> SameButRw(m[f][i], m'[f][i])
  }

  lemma SameEntry(m: Memory, m': Memory, f: Word, i: Index)
    requires SameMemory(m, m')
    ensures SameButRw(Entry(m, f, i), Entry(m', f, i))
  {
  }

  /** The same page at the same level, with the same rights but for the writable bits. */
  predicate SameTranslation(t: Translation, t': Translation) {
    match (t, t')
    case (Fault(l), Fault(l')) => l == l'
    case (Mapped(l, e, rs), Mapped(l', e', rs')) =>
      l == l' && SameButRw(e, e') && |rs| == |rs'| && forall i :: 0 <= i < |rs| ==> SameButRw(rs[i], rs'[i])
    case _ => false
  }

  lemma {:induction false} SameThrough(e: Word, e': Word, t: Translation, t': Translation)
    requires SameButRw(e, e') && SameTranslation(t, t')
    ensures SameTranslation(Through(e, t), Through(e', t'))
  {
    hide Flags, SameButRw;
    SameButRwMeans(e, e');
  }

  lemma {:induction false} SamePmdWalk(m: Memory, m': Memory, e: Word, e': Word, i4: Index)
    requires SameMemory(m, m') && SameButRw(e, e')
    ensures SameTranslation(WalkPmd(m, e, i4), WalkPmd(m', e', i4))
  {
    hide Frame, Flags, PudLarge, PmdLarge, SameButRw, SameMemory, Entry, Through;
    SameButRwMeans(e, e');
    var x, x' := Entry(m, Frame(e), i4), Entry(m', Frame(e), i4);
    SameEntry(m, m', Frame(e), i4);
    SameButRwMeans(x, x');
    SameThrough(e, e', WalkPte(x), WalkPte(x'));
  }

  lemma {:induction false} SamePudWalk(m: Memory, m': Memory, e: Word, e': Word, i3: Index, i4: Index)
    requires SameMemory(m, m') && SameButRw(e, e')
    ensures SameTranslation(WalkPud(m, e, i3, i4), WalkPud(m', e', i3, i4))
  {
    hide Frame, Flags, PudLarge, PmdLarge, SameButRw, SameMemory, Entry, Through, WalkPmd;
    SameButRwMeans(e, e');
    var x, x' := Entry(m, Frame(e), i3), Entry(m', Frame(e), i3);
    SameEntry(m, m', Frame(e), i3);
    SamePmdWalk(m, m', x, x', i4);
    SameThrough(e, e', WalkPmd(m, x, i4), WalkPmd(m', x', i4));
  }

  /** Setting or clearing writable bits anywhere, in tables shared in any way, changes no
      translation from any root, writable bits aside. */
  lemma {:induction false} SameWalks(m: Memory, m': Memory, root: Word, a: Address)
    requires SameMemory(m, m')
    ensures SameTranslation(Walk(m, root, a), Walk(m', root, a))
  {
    hide Frame, Flags, PudLarge, PmdLarge, SameButRw, SameMemory, Entry, Through, WalkPud;
    var e, e' := Entry(m, root, a.pgd), Entry(m', root, a.pgd);
    SameEntry(m, m', root, a.pgd);
    SameButRwMeans(e, e');
    var x, x' := Entry(m, Frame(e), a.pud), Entry(m', Frame(e), a.pud);
    SameEntry(m, m', Frame(e), a.pud);
    SamePudWalk(m, m', x, x', a.pmd, a.pte);
    SameThrough(e, e', WalkPud(m, x, a.pmd, a.pte), WalkPud(m', x', a.pmd, a.pte));
  }

  // ----- The walk with side effects -----

  /** What a lookup reports; a field that is not reached keeps its previous value. */
  datatype Pt = Pt(level: nat, valid: bool, pgd: Word, pud: Word, pmd: Word, pte: Word)

  function SetSlot(m: Memory, f: Word, i: Index): Memory
    requires f in m
    ensures SetSlot(m, f, i).Keys == m.Keys
  {
    m[f := m[f][i := SetRw(m[f][i])]]
  }

  // Every table the walk steps into is in use.

  predicate PmdPathIn(m: Memory, f: Word, a: Address) {
    f in m && (PmdTable(Entry(m, f, a.pmd)) ==> Frame(Entry(m, f, a.pmd)) in m)
  }

  predicate PudPathIn(m: Memory, f: Word, a: Address) {
    f in m && (PudTable(Entry(m, f, a.pud)) ==> PmdPathIn(m, Frame(Entry(m, f, a.pud)), a))
  }

  predicate PathIn(m: Memory, root: Word, a: Address) {
    root in m && (!IsInvalid(Entry(m, root, a.pgd)) ==> PudPathIn(m, Frame(Entry(m, root, a.pgd)), a))
  }

  // Memory after a lookup that starts in table f, in memory c, of the walk that memory m
  // defines: each entry on the path that points at something is made writable, and the PTE is
  // even if it does not.

  function AfterPmd(m: Memory, c: Memory, f: Word, a: Address): Memory
    requires PmdPathIn(m, f, a) && m.Keys == c.Keys
  {
    var e := Entry(m, f, a.pmd);
    if IsInvalid(e) then c
    else if PmdLarge(e) then SetSlot(c, f, a.pmd)
    else SetSlot(SetSlot(c, f, a.pmd), Frame(e), a.pte)
  }

  function AfterPud(m: Memory, c: Memory, f: Word, a: Address): Memory
    requires PudPathIn(m, f, a) && m.Keys == c.Keys
  {
    var e := Entry(m, f, a.pud);
    if IsInvalid(e) then c
    else if PudLarge(e) then SetSlot(c, f, a.pud)
    else AfterPmd(m, SetSlot(c, f, a.pud), Frame(e), a)
  }

  function AfterFind(m: Memory, root: Word, a: Address): Memory
    requires PathIn(m, root, a)
  {
    var e := Entry(m, root, a.pgd);
    if IsInvalid(e) then m else AfterPud(m, SetSlot(m, root, a.pgd), Frame(e), a)
  }

  lemma {:induction false} SetSlotSame(m0: Memory, m: Memory, f: Word, i: Index)
    requires SameMemory(m0, m) && f in m
    ensures SameMemory(m0, SetSlot(m, f, i))
  {
    SetRwSame(m[f][i]);
    SameButRwTrans(m0[f][i], m[f][i], SetRw(m[f][i]));
  }

  lemma SameMemoryRefl(m: Memory)
    ensures SameMemory(m, m)
  {
  }

  lemma SameButRwRefl(e: Word)
    ensures SameButRw(e, e)
  {
  }

  /** Makes slot i of page f writable. */
  method MakeWritable(k: Machine, f: Word, i: Index, ghost m0: Memory)
    requires f in k.mem && SameMemory(m0, k.mem)
    modifies k`mem
    ensures k.mem == SetSlot(old(k.mem), f, i) && SameMemory(m0, k.mem)
  {
    SetSlotSame(m0, k.mem, f, i);
    k.mem := k.mem[f := k.mem[f][i := SetRw(k.mem[f][i])]];
  }

  /** Flips the writable bit of slot i of page f back and forth. */
  method FlipTwice(k: Machine, f: Word, i: Index)
    requires f in k.mem
    modifies k`mem
    ensures k.mem == old(k.mem)
  {
    ToggleRwTwice(k.mem[f][i]);
    k.mem := k.mem[f := k.mem[f][i := ToggleRw(k.mem[f][i])]];
    k.mem := k.mem[f := k.mem[f][i := ToggleRw(k.mem[f][i])]];
    assert k.mem[f] == old(k.mem)[f];
  }

  /** What a lookup reports of a walk on the memory as it was; level is that of the last entry
      that points at something. */
  predicate Reports(it: Pt, above: nat, t: Translation) {
    && it.valid == t.Mapped?
    && match t
       case Fault(l) => it.level == if l == 4 then above else l + 1
       case Mapped(l, e, _) =>
         && it.level == l
         && SameButRw(e, if l == 3 then it.pud else if l == 2 then it.pmd else it.pte)
  }

  /** A field of the report holds the entry e, writable bit aside, if the lookup reaches it and it points at
      something; otherwise it is as it was. */
  predicate Field(before: Word, after: Word, reached: bool, e: Word) {
    if reached && !IsInvalid(e) then SameButRw(e, after) else after == before
  }

  /** The lookup in a table of PTEs. */
  method FindPte(k: Machine, pte: Word, a: Address, it0: Pt, ghost m: Memory) returns (it: Pt)
    requires pte in k.mem && SameMemory(m, k.mem) && it0.level == 2
    modifies k`mem
    ensures k.mem == SetSlot(old(k.mem), pte, a.pte) && SameMemory(m, k.mem)
    ensures Reports(it, 0, WalkPte(Entry(m, pte, a.pte)))
    ensures it.pgd == it0.pgd && it.pud == it0.pud && it.pmd == it0.pmd
    ensures Field(it0.pte, it.pte, true, Entry(m, pte, a.pte))
  {
    hide Frame, SameButRw, SetRw, ToggleRw, SameMemory, SetSlot, Entry;
    MakeWritable(k, pte, a.pte, m);
    FlipTwice(k, pte, a.pte);
    var e := Entry(k.mem, pte, a.pte);
    SameEntry(m, k.mem, pte, a.pte);
    SameButRwMeans(Entry(m, pte, a.pte), e);
    if Frame(e) == ZERO {
      it := it0.(valid := false);
      return;
    }
    it := it0.(pte := e, level := 1, valid := true);
  }

  /** The lookup in a table of PMD entries. */
  method FindPmd(k: Machine, pmd: Word, a: Address, it0: Pt, ghost m: Memory) returns (it: Pt)
    requires PmdPathIn(m, pmd, a) && SameMemory(m, k.mem) && m.Keys == k.mem.Keys && it0.level == 3
    modifies k`mem
    ensures k.mem == AfterPmd(m, old(k.mem), pmd, a) && SameMemory(m, k.mem)
    ensures Reports(it, 0, WalkPmd(m, Entry(m, pmd, a.pmd), a.pte))
    ensures it.pgd == it0.pgd && it.pud == it0.pud
    ensures var e3 := Entry(m, pmd, a.pmd);
            Field(it0.pmd, it.pmd, true, e3) && Field(it0.pte, it.pte, PmdTable(e3), Entry(m, Frame(e3), a.pte))
  {
    hide Frame, Flags, PmdLarge, SameButRw, SetRw, ToggleRw, SameMemory, SetSlot, Entry;
    var e := Entry(k.mem, pmd, a.pmd);
    SameEntry(m, k.mem, pmd, a.pmd);
    SameButRwMeans(Entry(m, pmd, a.pmd), e);
    if Frame(e) == ZERO {
      it := it0.(valid := false);
      return;
    }
    it := it0.(pmd := e, level := 2);
    MakeWritable(k, pmd, a.pmd, m);
    var e' := Entry(k.mem, pmd, a.pmd);
    SameEntry(m, k.mem, pmd, a.pmd);
    SameButRwMeans(Entry(m, pmd, a.pmd), e');
    if PmdLarge(e') {
      FlipTwice(k, pmd, a.pmd);
      it := it.(valid := true);
      return;
    }
    it := FindPte(k, Frame(e'), a, it, m);
  }

  /** The lookup in a table of PUD entries. */
  method FindPud(k: Machine, pud: Word, a: Address, it0: Pt, ghost m: Memory) returns (it: Pt)
    requires PudPathIn(m, pud, a) && SameMemory(m, k.mem) && m.Keys == k.mem.Keys && it0.level == 4
    modifies k`mem
    ensures k.mem == AfterPud(m, old(k.mem), pud, a) && SameMemory(m, k.mem)
    ensures Reports(it, 0, WalkPud(m, Entry(m, pud, a.pud), a.pmd, a.pte))
    ensures it.pgd == it0.pgd
    ensures var e2 := Entry(m, pud, a.pud);
            var e3 := Entry(m, Frame(e2), a.pmd);
            && Field(it0.pud, it.pud, true, e2) && Field(it0.pmd, it.pmd, PudTable(e2), e3)
            && Field(it0.pte, it.pte, PudTable(e2) && PmdTable(e3), Entry(m, Frame(e3), a.pte))
  {
    hide Frame, Flags, PudLarge, PmdLarge, SameButRw, SetRw, ToggleRw, SameMemory, SetSlot, Entry;
    var e := Entry(k.mem, pud, a.pud);
    SameEntry(m, k.mem, pud, a.pud);
    SameButRwMeans(Entry(m, pud, a.pud), e);
    if Frame(e) == ZERO {
      it := it0.(valid := false);
      return;
    }
    var pmd := Frame(e);
    MakeWritable(k, pud, a.pud, m);
    var e' := Entry(k.mem, pud, a.pud);
    SameEntry(m, k.mem, pud, a.pud);
    SameButRwMeans(Entry(m, pud, a.pud), e');
    it := it0.(pud := e', level := 3);
    if PudLarge(e') {
      it := it.(valid := true);
      return;
    }
    it := FindPmd(k, pmd, a, it, m);
  }

  method Find(k: Machine, address: bv64, root: Word, it0: Pt) returns (it: Pt)
    requires PathIn(k.mem, root, Indices(address))
    modifies k`mem
    ensures k.mem == AfterFind(old(k.mem), root, Indices(address))
    ensures SameMemory(old(k.mem), k.mem)
    ensures Reports(it, it0.level, Walk(old(k.mem), root, Indices(address)))
    ensures var m, a := old(k.mem), Indices(address);
            var e1 := Entry(m, root, a.pgd);
            var e2 := Entry(m, Frame(e1), a.pud);
            var e3 := Entry(m, Frame(e2), a.pmd);
            && Field(it0.pgd, it.pgd, true, e1) && Field(it0.pud, it.pud, !IsInvalid(e1), e2)
            && Field(it0.pmd, it.pmd, !IsInvalid(e1) && PudTable(e2), e3)
            && Field(it0.pte, it.pte, !IsInvalid(e1) && PudTable(e2) && PmdTable(e3), Entry(m, Frame(e3), a.pte))
  {
    hide Frame, Flags, PudLarge, PmdLarge, SameButRw, SetRw, SameMemory, SetSlot, Entry, Indices;
    var a := Indices(address);
    ghost var m := k.mem;
    SameMemoryRefl(m);
    var e := Entry(k.mem, root, a.pgd);
    SameButRwRefl(e);
    if Frame(e) == ZERO {
      it := it0.(valid := false);
      return;
    }
    MakeWritable(k, root, a.pgd, m);
    it := FindPud(k, Frame(e), a, it0.(pgd := e, level := 4), m);
  }

  // ----- What a lookup leaves behind -----

  lemma {:induction false} AfterFindSame(m: Memory, root: Word, a: Address)
    requires PathIn(m, root, a)
    ensures SameMemory(m, AfterFind(m, root, a))
  {
    hide Frame, PudLarge, PmdLarge, SameButRw, SameMemory, SetSlot, Entry;
    SameMemoryRefl(m);
    var e1 := Entry(m, root, a.pgd);
    if !IsInvalid(e1) {
      SetSlotSame(m, m, root, a.pgd);
      var m1, e2 := SetSlot(m, root, a.pgd), Entry(m, Frame(e1), a.pud);
      if !IsInvalid(e2) {
        SetSlotSame(m, m1, Frame(e1), a.pud);
        var m2, e3 := SetSlot(m1, Frame(e1), a.pud), Entry(m, Frame(e2), a.pmd);
        if !PudLarge(e2) && !IsInvalid(e3) {
          SetSlotSame(m, m2, Frame(e2), a.pmd);
          var m3 := SetSlot(m2, Frame(e2), a.pmd);
          if !PmdLarge(e3) {
            SetSlotSame(m, m3, Frame(e3), a.pte);
          }
        }
      }
    }
  }

  /** Looking one address up disturbs no address of any tree, even where tables are shared. */
  lemma {:induction false} FindHarmless(m: Memory, root: Word, a: Address, root': Word, a': Address)
    requires PathIn(m, root, a)
    ensures SameTranslation(Walk(m, root', a'), Walk(AfterFind(m, root, a), root', a'))
  {
    AfterFindSame(m, root, a);
    SameWalks(m, AfterFind(m, root, a), root', a');
  }

  lemma SetSlotWritable(m: Memory, f: Word, i: Index, g: Word, j: Index)
    requires f in m
    ensures f == g && i == j ==> Writable(Entry(SetSlot(m, f, i), g, j))
    ensures Writable(Entry(m, g, j)) ==> Writable(Entry(SetSlot(m, f, i), g, j))
  {
  }

  predicate WritableThroughout(t: Translation) {
    t.Mapped? && Writable(t.leaf) && forall i :: 0 <= i < |t.rights| ==> Writable(t.rights[i])
  }

  lemma ThroughWritable(e: Word, t: Translation)
    requires Writable(e) && WritableThroughout(t)
    ensures WritableThroughout(Through(e, t))
  {
  }

  /** After a successful lookup the address can be written through every table on its path. */
  lemma {:induction false} FindMakesWritable(m: Memory, root: Word, a: Address)
    requires PathIn(m, root, a) && Walk(m, root, a).Mapped?
    ensures WritableThroughout(Walk(AfterFind(m, root, a), root, a))
  {
    hide Frame, Flags, PudLarge, PmdLarge, SameButRw, SameMemory, SetSlot, Entry, Writable, WritableThroughout;
    AfterFindSame(m, root, a);
    var c := AfterFind(m, root, a);
    var f1, m1 := root, SetSlot(m, root, a.pgd);
    var e1, f2 := Entry(m, root, a.pgd), Frame(Entry(m, root, a.pgd));
    var e2, m2 := Entry(m, f2, a.pud), SetSlot(m1, f2, a.pud);
    SameEntries(m, c, f1, a.pgd);
    SameEntries(m, c, f2, a.pud);
    SetSlotWritable(m, f1, a.pgd, f1, a.pgd);
    SetSlotWritable(m1, f2, a.pud, f1, a.pgd);
    SetSlotWritable(m1, f2, a.pud, f2, a.pud);
    if PudLarge(e2) {
      LeafWritable(3, Entry(c, f2, a.pud));
    } else {
      var f3 := Frame(e2);
      var e3, m3 := Entry(m, f3, a.pmd), SetSlot(m2, f3, a.pmd);
      SameEntries(m, c, f3, a.pmd);
      SetSlotWritable(m2, f3, a.pmd, f1, a.pgd);
      SetSlotWritable(m2, f3, a.pmd, f2, a.pud);
      SetSlotWritable(m2, f3, a.pmd, f3, a.pmd);
      if PmdLarge(e3) {
        LeafWritable(2, Entry(c, f3, a.pmd));
      } else {
        var f4 := Frame(e3);
        SameEntries(m, c, f4, a.pte);
        SetSlotWritable(m3, f4, a.pte, f1, a.pgd);
        SetSlotWritable(m3, f4, a.pte, f2, a.pud);
        SetSlotWritable(m3, f4, a.pte, f3, a.pmd);
        SetSlotWritable(m3, f4, a.pte, f4, a.pte);
        LeafWritable(1, Entry(c, f4, a.pte));
        ThroughWritable(Entry(c, f3, a.pmd), WalkPte(Entry(c, f4, a.pte)));
      }
      ThroughWritable(Entry(c, f2, a.pud), WalkPmd(c, Entry(c, f3, a.pmd), a.pte));
    }
    ThroughWritable(Entry(c, f1, a.pgd), WalkPud(c, Entry(c, f2, a.pud), a.pmd, a.pte));
  }

  lemma LeafWritable(level: nat, e: Word)
    requires Writable(e)
    ensures WritableThroughout(Mapped(level, e, []))
  {
  }

  lemma {:induction false} SameEntries(m: Memory, m': Memory, f: Word, i: Index)
    requires SameMemory(m, m')
    ensures var e, e' := Entry(m, f, i), Entry(m', f, i);
            Frame(e) == Frame(e') && PudLarge(e) == PudLarge(e') && PmdLarge(e) == PmdLarge(e')
  {
    SameEntry(m, m', f, i);
    SameButRwMeans(Entry(m, f, i), Entry(m', f, i));
  }

  // ----- Which entries a lookup changes -----

  /** The table and the slot that hold the entry for address a at a level. */
  function EntryAt(m: Memory, root: Word, a: Address, level: nat): (Word, Index) {
    var e1 := Entry(m, root, a.pgd);
    var e2 := Entry(m, Frame(e1), a.pud);
    var e3 := Entry(m, Frame(e2), a.pmd);
    if level == 4 then (root, a.pgd)
    else if level == 3 then (Frame(e1), a.pud)
    else if level == 2 then (Frame(e2), a.pmd)
    else (Frame(e3), a.pte)
  }

  /** The lowest level at which a lookup makes an entry writable: that of the page if there is one, of the
      last entry that points at something if not, and of the PTE in any case. */
  function Lowest(t: Translation): nat {
    match t
    case Fault(l) => if l == 1 then 1 else l + 1
    case Mapped(l, _, _) => l
  }

  /** The entry is one of those the lookup passes. */
  predicate Passed(m: Memory, root: Word, a: Address, f: Word, i: Index) {
    exists level :: Lowest(Walk(m, root, a)) <= level <= 4 && EntryAt(m, root, a, level) == (f, i)
  }

  lemma {:induction false} SlotSet(c: Memory, f: Word, i: Index, g: Word, j: Index)
    requires f in c
    ensures Entry(SetSlot(c, f, i), g, j) == if (g, j) == (f, i) then SetRw(Entry(c, g, j)) else Entry(c, g, j)
  {
    hide SetRw;
  }

  lemma SetTwice(e: Word)
    ensures SetRw(SetRw(e)) == SetRw(e)
  {
  }

  // The entries made writable from a level on.

  predicate HitPmd(m: Memory, t: Word, a: Address, f: Word, i: Index) {
    var e := Entry(m, t, a.pmd);
    !IsInvalid(e) && ((f, i) == (t, a.pmd) || (!PmdLarge(e) && (f, i) == (Frame(e), a.pte)))
  }

  predicate HitPud(m: Memory, t: Word, a: Address, f: Word, i: Index) {
    var e := Entry(m, t, a.pud);
    !IsInvalid(e) && ((f, i) == (t, a.pud) || (!PudLarge(e) && HitPmd(m, Frame(e), a, f, i)))
  }

  predicate HitPgd(m: Memory, root: Word, a: Address, f: Word, i: Index) {
    var e := Entry(m, root, a.pgd);
    !IsInvalid(e) && ((f, i) == (root, a.pgd) || HitPud(m, Frame(e), a, f, i))
  }

  lemma {:induction false} PmdChanges(m: Memory, c: Memory, t: Word, a: Address, f: Word, i: Index)
    requires PmdPathIn(m, t, a) && m.Keys == c.Keys
    ensures Entry(AfterPmd(m, c, t, a), f, i) == if HitPmd(m, t, a, f, i) then SetRw(Entry(c, f, i)) else Entry(c, f, i)
  {
    hide Frame, IsInvalid, PmdLarge, SetRw, SetSlot, Entry;
    var e := Entry(m, t, a.pmd);
    SetTwice(Entry(c, f, i));
    if !IsInvalid(e) {
      SlotSet(c, t, a.pmd, f, i);
      if !PmdLarge(e) {
        SlotSet(SetSlot(c, t, a.pmd), Frame(e), a.pte, f, i);
      }
    }
  }

  lemma {:induction false} PudChanges(m: Memory, c: Memory, t: Word, a: Address, f: Word, i: Index)
    requires PudPathIn(m, t, a) && m.Keys == c.Keys
    ensures Entry(AfterPud(m, c, t, a), f, i) == if HitPud(m, t, a, f, i) then SetRw(Entry(c, f, i)) else Entry(c, f, i)
  {
    hide Frame, IsInvalid, PudLarge, PmdLarge, SetRw, SetSlot, Entry, AfterPmd, HitPmd;
    var e := Entry(m, t, a.pud);
    SetTwice(Entry(c, f, i));
    if !IsInvalid(e) {
      var c' := SetSlot(c, t, a.pud);
      SlotSet(c, t, a.pud, f, i);
      if !PudLarge(e) {
        PmdChanges(m, c', Frame(e), a, f, i);
      }
    }
  }

  lemma LowestLevel(m: Memory, root: Word, a: Address)
    ensures
      var e1 := Entry(m, root, a.pgd);
      var e2 := Entry(m, Frame(e1), a.pud);
      var e3 := Entry(m, Frame(e2), a.pmd);
      Lowest(Walk(m, root, a)) ==
        if IsInvalid(e1) then 5 else if IsInvalid(e2) then 4 else if PudLarge(e2) || IsInvalid(e3) then 3
        else if PmdLarge(e3) then 2 else 1
  {
    hide Frame, Flags, IsInvalid, PudLarge, PmdLarge, Entry;
  }

  lemma {:induction false} PassedLevels(m: Memory, root: Word, a: Address, f: Word, i: Index)
    requires 1 <= Lowest(Walk(m, root, a))
    ensures Passed(m, root, a, f, i) <==>
      var l := Lowest(Walk(m, root, a));
      || (l <= 4 && EntryAt(m, root, a, 4) == (f, i)) || (l <= 3 && EntryAt(m, root, a, 3) == (f, i))
      || (l <= 2 && EntryAt(m, root, a, 2) == (f, i)) || (l <= 1 && EntryAt(m, root, a, 1) == (f, i))
  {
    hide Walk, EntryAt, Lowest;
  }

  lemma {:induction false} PassedHits(m: Memory, root: Word, a: Address, f: Word, i: Index)
    ensures Passed(m, root, a, f, i) <==> HitPgd(m, root, a, f, i)
  {
    hide Frame, Flags, IsInvalid, PudLarge, PmdLarge, Entry, Walk, Lowest, Passed;
    LowestLevel(m, root, a);
    PassedLevels(m, root, a, f, i);
  }

  /** Exactly these entries change, and of them the writable bit alone. */
  lemma {:induction false} FindChanges(m: Memory, root: Word, a: Address, f: Word, i: Index)
    requires PathIn(m, root, a)
    ensures Entry(AfterFind(m, root, a), f, i) ==
            if Passed(m, root, a, f, i) then SetRw(Entry(m, f, i)) else Entry(m, f, i)
  {
    hide Frame, IsInvalid, PudLarge, PmdLarge, SetRw, SetSlot, Entry, AfterPud, HitPud, Passed;
    PassedHits(m, root, a, f, i);
    var e := Entry(m, root, a.pgd);
    SetTwice(Entry(m, f, i));
    if !IsInvalid(e) {
      SlotSet(m, root, a.pgd, f, i);
      PudChanges(m, SetSlot(m, root, a.pgd), Frame(e), a, f, i);
    }
  }

  /** Where the lookup runs into an entry of a table that points at nothing, this entry stays as it is,
      unless an entry passed before it is the same one. */
  lemma {:induction false} FaultingEntryKept(m: Memory, root: Word, a: Address)
    requires PathIn(m, root, a) && Walk(m, root, a).Fault? && Walk(m, root, a).level > 1
    ensures var l := Walk(m, root, a).level;
            var (f, i) := EntryAt(m, root, a, l);
            && IsInvalid(Entry(m, f, i))
            && (Entry(AfterFind(m, root, a), f, i) == Entry(m, f, i) ||
                exists level :: l < level <= 4 && EntryAt(m, root, a, level) == (f, i))
  {
    hide Frame, Flags, PudLarge, PmdLarge, SetRw, SetSlot, Entry, AfterFind;
    var (f, i) := EntryAt(m, root, a, Walk(m, root, a).level);
    FindChanges(m, root, a, f, i);
  }
}
