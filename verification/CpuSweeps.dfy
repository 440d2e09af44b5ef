/** What write-protecting the PMD level means to the processor, which goes by the present bit. */
module CpuSweeps {
  import opened PageWords
  import opened PageTables
  import opened PageWalk
  import opened PageSweeps
  import opened SweepTheorems
  import opened CpuWalk
  import opened CpuCopies

  /** The four entries that the processor may read for an address. */
  datatype Path = Path(e1: Word, e2: Word, e3: Word, e4: Word)

  function PathOf(m: Memory, root: Word, a: Address): Path {
    var e1 := Entry(m, root, a.pgd);
    var e2 := Entry(m, Frame(e1), a.pud);
    var e3 := Entry(m, Frame(e2), a.pmd);
    Path(e1, e2, e3, Entry(m, Frame(e3), a.pte))
  }

  /** The processor may write: the entry that maps the page allows it, and every table on the way. */
  predicate CanWrite(t: Access) {
    t.Maps? && Bit(t.leaf, 1) && forall i :: 0 <= i < |t.rights| ==> t.rights[i].write
  }

  lemma {:induction false} BelowExactly(e: Word, t: Access)
    ensures CanWrite(Below(e, t)) <==> Writable(e) && CanWrite(t)
  {
    hide Bit, Writable;
    KindBits(e);
    if t.Maps? {
      var r := Below(e, t).rights;
      assert r[0] == RightsOf(e) && forall i :: 0 <= i < |t.rights| ==> r[i + 1] == t.rights[i];
    }
  }

  /** An address can be written through every table exactly if each entry that is read is present
      and writable. */
  lemma {:induction false} CpuWritableMeans(m: Memory, root: Word, a: Address)
    ensures var t, p := Translate(m, root, a), PathOf(m, root, a);
            && (t.Maps? ==> t.level == if PudLarge(p.e2) then 3 else if PmdLarge(p.e3) then 2 else 1)
            && (CanWrite(t) <==>
                && Bit(p.e1, 0) && Writable(p.e1) && Bit(p.e2, 0) && Writable(p.e2)
                && (PudLarge(p.e2) ||
                    (Bit(p.e3, 0) && Writable(p.e3) && (PmdLarge(p.e3) || (Bit(p.e4, 0) && Writable(p.e4))))))
  {
    hide Entry, Frame, PudLarge, PmdLarge, Writable, Bit, Below;
    var p := PathOf(m, root, a);
    KindBits(p.e2);
    KindBits(p.e3);
    PteExactly(p.e4);
    LargeExactly(p.e2, 3);
    LargeExactly(p.e3, 2);
    BelowExactly(p.e3, CpuPte(p.e4));
    BelowExactly(p.e2, CpuPmd(m, p.e3, a.pte));
    BelowExactly(p.e1, CpuPud(m, p.e2, a.pmd, a.pte));
    BelowLevel(p.e3, CpuPte(p.e4));
    BelowLevel(p.e2, CpuPmd(m, p.e3, a.pte));
    BelowLevel(p.e1, CpuPud(m, p.e2, a.pmd, a.pte));
  }

  lemma CanWriteMaps(t: Access)
    ensures CanWrite(t) ==> t.Maps?
  {
  }

  /** An entry that maps a page by itself. */
  lemma {:induction false} LargeExactly(e: Word, level: nat)
    ensures CanWrite(Maps(level, e, [])) <==> Writable(e)
  {
    hide Bit, Writable;
    KindBits(e);
  }

  lemma {:induction false} PteExactly(e: Word)
    ensures CanWrite(CpuPte(e)) <==> Bit(e, 0) && Writable(e)
  {
    hide Bit, Writable;
    KindBits(e);
  }

  lemma BelowLevel(e: Word, t: Access)
    ensures Below(e, t).Maps? == t.Maps? && Below(e, t).level == t.level
  {
  }

  /** Whether the entry in slot i of page f is writable after the sweep: it was, and the sweep passes
      it by. */
  predicate KeepsRw(m: Memory, root: Word, f: Word, i: Index) {
    Writable(Entry(m, f, i)) && (f !in Pages(m, root, false, ENTRIES) || IsInvalid(Entry(m, f, i)))
  }

  lemma {:induction false} EntryClosed(m: Memory, m': Memory, root: Word, f: Word, i: Index)
    requires Closed(m, m', Pages(m, root, false, ENTRIES))
    ensures var e, e' := Entry(m, f, i), Entry(m', f, i);
            Writable(e') == KeepsRw(m, root, f, i) && Bit(e', 0) == Bit(e, 0) && IsInvalid(e') == IsInvalid(e)
  {
    hide Frame, Writable, Bit, Pages, ToggleRw, PudLarge, PmdLarge;
    var e := Entry(m, f, i);
    WritableBits(e, 0);
    ToggleRwFlips(e);
    ToggleRwFrame(e);
    ZeroInvalid();
    NothingWritable();
  }

  lemma NothingWritable()
    ensures !Writable(ZERO) && !Bit(ZERO, 0)
  {
  }

  /** The entries of the path of an address after the sweep. */
  lemma {:induction false} PathClosed(m: Memory, m': Memory, root: Word, a: Address)
    requires Closed(m, m', Pages(m, root, false, ENTRIES))
    ensures var p, p' := PathOf(m, root, a), PathOf(m', root, a);
            && Writable(p'.e1) == KeepsRw(m, root, root, a.pgd) && Bit(p'.e1, 0) == Bit(p.e1, 0)
            && Writable(p'.e2) == KeepsRw(m, root, Frame(p.e1), a.pud) && Bit(p'.e2, 0) == Bit(p.e2, 0)
            && Writable(p'.e3) == KeepsRw(m, root, Frame(p.e2), a.pmd) && Bit(p'.e3, 0) == Bit(p.e3, 0)
            && Writable(p'.e4) == KeepsRw(m, root, Frame(p.e3), a.pte) && Bit(p'.e4, 0) == Bit(p.e4, 0)
            && PudLarge(p'.e2) == PudLarge(p.e2) && PmdLarge(p'.e3) == PmdLarge(p.e3)
  {
    hide Frame, Writable, Bit, Pages, PudLarge, PmdLarge, Closed, KeepsRw, Entry, SameMemory, IsInvalid;
    var p := PathOf(m, root, a);
    ClosedSame(m, m', Pages(m, root, false, ENTRIES));
    SameEntries(m, m', root, a.pgd);
    SameEntries(m, m', Frame(p.e1), a.pud);
    SameEntries(m, m', Frame(p.e2), a.pmd);
    EntryClosed(m, m', root, root, a.pgd);
    EntryClosed(m, m', root, Frame(p.e1), a.pud);
    EntryClosed(m, m', root, Frame(p.e2), a.pmd);
    EntryClosed(m, m', root, Frame(p.e3), a.pte);
  }

  /** After the sweep the processor can write to an address exactly if it could before and the sweep
      passes by every entry that is read. */
  lemma {:induction false} ClosedForCpuExactly(m: Memory, m': Memory, root: Word, a: Address)
    requires Closed(m, m', Pages(m, root, false, ENTRIES))
    ensures var p := PathOf(m, root, a);
            CanWrite(Translate(m', root, a)) <==>
            && Bit(p.e1, 0) && KeepsRw(m, root, root, a.pgd)
            && Bit(p.e2, 0) && KeepsRw(m, root, Frame(p.e1), a.pud)
            && (PudLarge(p.e2) ||
                (Bit(p.e3, 0) && KeepsRw(m, root, Frame(p.e2), a.pmd) &&
                 (PmdLarge(p.e3) || (Bit(p.e4, 0) && KeepsRw(m, root, Frame(p.e3), a.pte)))))
  {
    hide Entry, Frame, PudLarge, PmdLarge, Writable, Bit, KeepsRw, Closed, PathOf, Translate,
        CanWrite, Pages;
    PathClosed(m, m', root, a);
    CpuWritableMeans(m', root, a);
  }

  /** After the sweep the processor can write to an address of the upper half only over a 1 GB page
      or a present entry, at one of the upper three levels, whose page frame is zero. */
  lemma {:induction false} ClosedIsReadOnlyForCpu(m: Memory, m': Memory, root: Word, a: Address)
    requires 256 <= a.pgd && Closed(m, m', Pages(m, root, false, ENTRIES))
    requires CanWrite(Translate(m', root, a))
    ensures var p := PathOf(m, root, a);
            Translate(m', root, a).level == 3 || Lost(p.e1) || Lost(p.e2) || Lost(p.e3)
  {
    hide Entry, Frame, PudLarge, PmdLarge, Writable, Bit, Closed, Translate, Pages;
    var p := PathOf(m, root, a);
    ClosedForCpuExactly(m, m', root, a);
    PathClosed(m, m', root, a);
    CpuWritableMeans(m', root, a);
    if !IsInvalid(p.e1) && PudTable(p.e2) {
      assert PointsAt(m, root, a.pgd, a.pud, Frame(p.e2));
      PagesMeans(m, root, false, Frame(p.e2));
    }
  }

  /** The sweep reaches one PMD page of the sample. */
  lemma {:induction false} LowSamplePages(f: Word)
    ensures f in Pages(LowSample(), Word(0x1000), false, ENTRIES) ==> f == Word(0x3000)
  {
    hide Frame, PudLarge, Bit, Pages;
    LowWords();
    PagesMeans(LowSample(), Word(0x1000), false, f);
    forall i1: Index, i2: Index | PointsAt(LowSample(), Word(0x1000), i1, i2, f) ensures f == Word(0x3000) {
      assert i1 == 256;
      assert i2 == 0;
    }
  }

  /** The first 2 MB of physical memory, mapped in the upper half, can still be written. */
  lemma {:induction false} LowSampleStaysOpen(m': Memory)
    requires Closed(LowSample(), m', Pages(LowSample(), Word(0x1000), false, ENTRIES))
    ensures var t := Translate(m', Word(0x1000), Address(256, 0, 0, 0)); CanWrite(t) && t.level == 2
  {
    hide Frame, PudLarge, PmdLarge, Writable, Bit, Closed, Translate, Pages, CanWrite;
    LowWords();
    LowSamplePages(Word(0x1000));
    LowSamplePages(Word(0x2000));
    var m, a := LowSample(), Address(256, 0, 0, 0);
    var p := PathOf(m, Word(0x1000), a);
    assert p.e1 == Word(0x2003) && p.e2 == Word(0x3003) && p.e3 == Word(0x1e3);
    ClosedForCpuExactly(m, m', Word(0x1000), a);
    PathClosed(m, m', Word(0x1000), a);
    CpuWritableMeans(m', Word(0x1000), a);
    CanWriteMaps(Translate(m', Word(0x1000), a));
  }
}
