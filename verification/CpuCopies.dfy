/** What a deep copy means to the processor: which addresses it translates as the old tree does, by
    the present bit, and exactly when these are all. */
module CpuCopies {
  import opened PageWords
  import opened PageTables
  import opened CopyRelation
  import opened CopyTheorems
  import opened CpuWalk

  // ----- Translation through the copy -----

  /** A present entry of a PMD page whose page frame is zero: the copying loop takes it for empty and
      stores zero in its place. */
  predicate Lost(e: Word) {
    Bit(e, 0) && IsInvalid(e)
  }

  /** What the copy of a PMD entry translates as. */
  function PmdShown(m: Memory, e: Word, i4: Index): Access {
    if Lost(e) then Faults(2) else CpuPmd(m, e, i4)
  }

  lemma {:induction false} PmdCopiedShows(m0: Memory, m: Memory, n: set<Word>, e0: Word, e: Word)
    requires PmdCopied(m0, m, n, e0, e)
    ensures forall i4: Index :: CpuPmd(m, e, i4) == PmdShown(m0, e0, i4)
  {
    if PmdTable(e0) {
      RetargetRights(Frame(e), e0);
    }
  }

  /** A copied PMD entry means the same to the processor if and only if it is not lost. */
  lemma {:induction false} PmdCopiedExactly(m0: Memory, m: Memory, n: set<Word>, e0: Word, e: Word)
    requires PmdCopied(m0, m, n, e0, e)
    ensures (forall i4: Index :: CpuPmd(m, e, i4) == CpuPmd(m0, e0, i4)) <==> !Lost(e0)
  {
    PmdCopiedShows(m0, m, n, e0, e);
    assert CpuPmd(m, e, 0) == PmdShown(m0, e0, 0);
  }

  /** What address (i3, i4) below a PUD entry in slot i2 translates as in a copy. */
  function PudShown(v: Version, m: Memory, e: Word, i2: Index, i3: Index, i4: Index): Access {
    if Bit(e, 0) && PudTable(e) then Below(e, PmdShown(m, Entry(m, Frame(e), PudSource(v, m, e, i2, i3)), i4))
    else CpuPud(m, e, i3, i4)
  }

  lemma {:induction false} PudCopiedShows(v: Version, m0: Memory, m: Memory, n: set<Word>, s: set<Word>, e0: Word,
      e: Word, i2: Index)
    requires PudCopied(m0, m, n, e0, e, Stray(v, i2)) && CpuPudIn(m0, s, e0) && Kept(m0, m, s)
    ensures forall i3: Index, i4: Index :: CpuPud(m, e, i3, i4) == PudShown(v, m0, e0, i2, i3, i4)
  {
    if PudTable(e0) {
      RetargetRights(Frame(e), e0);
      forall i3: Index, i4: Index ensures CpuPud(m, e, i3, i4) == PudShown(v, m0, e0, i2, i3, i4) {
        PmdCopiedShows(m0, m, n, m0[Frame(e0)][Source(m0[Frame(e0)], Stray(v, i2), i3, ENTRIES)], m[Frame(e)][i3]);
      }
    } else {
      CpuPudKept(m0, m, s, e0);
    }
  }

  function PgdShown(v: Version, m: Memory, e: Word, i2: Index, i3: Index, i4: Index): Access {
    if Bit(e, 0) && !IsInvalid(e) then Below(e, PudShown(v, m, Entry(m, Frame(e), i2), i2, i3, i4))
    else CpuPgd(m, e, i2, i3, i4)
  }

  lemma {:induction false} PgdCopiedShows(v: Version, m0: Memory, m: Memory, n: set<Word>, s: set<Word>, e0: Word,
      e: Word)
    requires PgdCopied(v, m0, m, n, e0, e) && CpuPgdIn(m0, s, e0) && Kept(m0, m, s)
    ensures forall i2: Index, i3: Index, i4: Index :: CpuPgd(m, e, i2, i3, i4) == PgdShown(v, m0, e0, i2, i3, i4)
  {
    if !IsInvalid(e0) {
      RetargetRights(Frame(e), e0);
      if Bit(e0, 0) {
        forall i2: Index, i3: Index, i4: Index ensures CpuPgd(m, e, i2, i3, i4) == PgdShown(v, m0, e0, i2, i3, i4) {
          PudCopiedShows(v, m0, m, n, s, m0[Frame(e0)][i2], m[Frame(e)][i2], i2);
        }
      }
    } else {
      CpuPgdKept(m0, m, s, e0);
    }
  }

  /** The processor reaches the PMD page f over PGD slot i1 and PUD slot i2, and the copying loops do
      too. */
  predicate BothReach(m: Memory, root: Word, i1: Index, i2: Index, f: Word) {
    var e1 := Entry(m, root, i1);
    var e2 := Entry(m, Frame(e1), i2);
    Bit(e1, 0) && !IsInvalid(e1) && Bit(e2, 0) && PudTable(e2) && Frame(e2) == f
  }

  function PmdPage(m: Memory, root: Word, a: Address): Word {
    Frame(Entry(m, Frame(Entry(m, root, a.pgd)), a.pud))
  }

  /** The address runs into a present PMD entry whose page frame is zero. */
  predicate Loses(m: Memory, root: Word, a: Address) {
    var f := PmdPage(m, root, a);
    BothReach(m, root, a.pgd, a.pud, f) && Lost(Entry(m, f, a.pmd))
  }

  /** Every copied address translates as the address it is redirected to does in the old tree, but
      faults if that one runs into a present entry of page frame zero. */
  lemma {:induction false} CopyShows(v: Version, m0: Memory, m: Memory, s: set<Word>, root: Word, copy: Word,
      lo: nat, hi: nat, a: Address)
    requires CpuTreeIn(m0, s, root, lo, hi) && s <= m0.Keys && copy !in s
    requires RangeCopied(v, m0, m, root, copy, lo, hi) && lo <= a.pgd < hi
    ensures var a' := Redirect(v, m0, root, a);
            Translate(m, copy, a) == if Loses(m0, root, a') then Faults(2) else Translate(m0, root, a')
  {
    PgdCopiedShows(v, m0, m, m.Keys - m0.Keys, s, m0[root][a.pgd], m[copy][a.pgd]);
    ShownMeans(v, m0, root, a);
  }

  lemma {:induction false} ShownMeans(v: Version, m: Memory, root: Word, a: Address)
    ensures var a' := Redirect(v, m, root, a);
            PgdShown(v, m, Entry(m, root, a.pgd), a.pud, a.pmd, a.pte) ==
            if Loses(m, root, a') then Faults(2) else Translate(m, root, a')
  {
    hide RightsOf, PudLarge, PmdLarge, Bit, Source;
    KindBits(Entry(m, Frame(Entry(m, root, a.pgd)), a.pud));
  }

  // ----- Exactly when the copy is faithful -----

  /** To the processor the table of PTEs in entry e' is what entry e is: both are not present, or
      live slots have the same PTE below the same flags. */
  predicate SameToCpu(m: Memory, e: Word, e': Word) {
    if !Bit(e', 0) then !Bit(e, 0)
    else
      Bit(e, 0) && !Bit(e, 7) &&
      forall i4: Index ::
        var x, x' := Entry(m, Frame(e), i4), Entry(m, Frame(e'), i4);
        (!Bit(x, 0) && !Bit(x', 0)) || (Bit(x, 0) && x == x' && RightsOf(e) == RightsOf(e'))
  }

  /** Slot i3 of a PMD page below PUD slot i2 is not lost, and if it shows a later table, that is
      what it has anyway. */
  predicate KeptSlot(v: Version, m: Memory, p: Page, i2: Index, i3: Index) {
    var j := Source(p, Stray(v, i2), i3, ENTRIES);
    if j == i3 then !Lost(p[i3]) else SameToCpu(m, p[i3], p[j])
  }

  /** Every slot of every PMD page that the processor and the loops reach through slots lo..hi is
      kept. */
  predicate KeptTree(v: Version, m: Memory, root: Word, lo: nat, hi: nat) {
    forall i1: Index, i2: Index, i3: Index, f ::
      lo <= i1 < hi && BothReach(m, root, i1, i2, f) && f in m ==> KeptSlot(v, m, m[f], i2, i3)
  }

  lemma {:induction false} SameToCpuMeans(m: Memory, e: Word, e': Word)
    requires PmdTable(e')
    ensures SameToCpu(m, e, e') <==> forall i4: Index :: CpuPmd(m, e, i4) == CpuPmd(m, e', i4)
  {
    if forall i4: Index :: CpuPmd(m, e, i4) == CpuPmd(m, e', i4) {
      assert CpuPmd(m, e, 0) == CpuPmd(m, e', 0);
      forall i4: Index
        ensures var x, x' := Entry(m, Frame(e), i4), Entry(m, Frame(e'), i4);
          Bit(e', 0) ==> (!Bit(x, 0) && !Bit(x', 0)) || (Bit(x, 0) && x == x' && RightsOf(e) == RightsOf(e'))
      {
        assert CpuPmd(m, e, i4) == CpuPmd(m, e', i4);
        if Bit(e', 0) && Bit(Entry(m, Frame(e), i4), 0) {
          assert CpuPmd(m, e, i4).rights[0] == RightsOf(e);
          assert CpuPmd(m, e', i4).rights[0] == RightsOf(e');
        }
      }
    }
  }

  /** One slot below a path that both reach. */
  lemma {:induction false} KeptSlotMeans(v: Version, m: Memory, e1: Word, e2: Word, i2: Index, i3: Index)
    requires Bit(e1, 0) && !IsInvalid(e1) && Bit(e2, 0) && PudTable(e2) && Frame(e2) in m
    requires e2 == Entry(m, Frame(e1), i2)
    ensures KeptSlot(v, m, m[Frame(e2)], i2, i3) <==>
            forall i4: Index :: PgdShown(v, m, e1, i2, i3, i4) == CpuPgd(m, e1, i2, i3, i4)
  {
    hide RightsOf, PudLarge, PmdLarge, SameToCpu;
    KindBits(e2);
    var p := m[Frame(e2)];
    var j := Source(p, Stray(v, i2), i3, ENTRIES);
    forall i4: Index
      ensures PgdShown(v, m, e1, i2, i3, i4) == CpuPgd(m, e1, i2, i3, i4) <==>
              PmdShown(m, p[j], i4) == CpuPmd(m, p[i3], i4)
    {
      BelowInjective(e2, PmdShown(m, p[j], i4), CpuPmd(m, p[i3], i4));
      BelowInjective(e1, Below(e2, PmdShown(m, p[j], i4)), Below(e2, CpuPmd(m, p[i3], i4)));
    }
    if j == i3 {
      assert Lost(p[i3]) ==> PmdShown(m, p[i3], 0) != CpuPmd(m, p[i3], 0);
    } else {
      SameToCpuMeans(m, p[i3], p[j]);
    }
  }

  lemma {:induction false} KeptTreeMeans(v: Version, m: Memory, s: set<Word>, root: Word, lo: nat, hi: nat)
    requires CpuTreeIn(m, s, root, lo, hi)
    ensures KeptTree(v, m, root, lo, hi) <==>
      forall i1: Index, i2: Index, i3: Index, i4: Index ::
        lo <= i1 < hi ==> PgdShown(v, m, m[root][i1], i2, i3, i4) == CpuPgd(m, m[root][i1], i2, i3, i4)
  {
    hide RightsOf, PudLarge, PmdLarge, KeptSlot, PudShown, CpuPud;
    if KeptTree(v, m, root, lo, hi) {
      forall i1: Index, i2: Index, i3: Index, i4: Index | lo <= i1 < hi
        ensures PgdShown(v, m, m[root][i1], i2, i3, i4) == CpuPgd(m, m[root][i1], i2, i3, i4)
      {
        var e1 := m[root][i1];
        var e2 := Entry(m, Frame(e1), i2);
        KindBits(e2);
        if BothReach(m, root, i1, i2, Frame(e2)) {
          assert CpuPudIn(m, s, m[Frame(e1)][i2]);
          assert KeptSlot(v, m, m[Frame(e2)], i2, i3);
          KeptSlotMeans(v, m, e1, e2, i2, i3);
        } else {
          NotBoth(v, m, e1, i2, i3, i4);
        }
      }
    }
    if forall i1: Index, i2: Index, i3: Index, i4: Index ::
        lo <= i1 < hi ==> PgdShown(v, m, m[root][i1], i2, i3, i4) == CpuPgd(m, m[root][i1], i2, i3, i4) {
      forall i1: Index, i2: Index, i3: Index, f | lo <= i1 < hi && BothReach(m, root, i1, i2, f) && f in m
        ensures KeptSlot(v, m, m[f], i2, i3)
      {
        KeptSlotMeans(v, m, m[root][i1], Entry(m, Frame(m[root][i1]), i2), i2, i3);
      }
    }
  }

  /** Elsewhere the copy shows what is there. */
  lemma NotBoth(v: Version, m: Memory, e1: Word, i2: Index, i3: Index, i4: Index)
    requires var e2 := Entry(m, Frame(e1), i2); !(Bit(e1, 0) && !IsInvalid(e1) && Bit(e2, 0) && PudTable(e2))
    ensures PgdShown(v, m, e1, i2, i3, i4) == CpuPgd(m, e1, i2, i3, i4)
  {
  }

  /** To the processor the copy translates every address of slots lo..hi as the old tree does if and
      only if no slot of a PMD page is lost, and no later table is stored over a different one. */
  lemma {:induction false} FaithfulToCpuExactly(v: Version, m0: Memory, m: Memory, s: set<Word>, root: Word,
      copy: Word, lo: nat, hi: nat)
    requires CpuTreeIn(m0, s, root, lo, hi) && s <= m0.Keys && copy !in s
    requires RangeCopied(v, m0, m, root, copy, lo, hi)
    ensures KeptTree(v, m0, root, lo, hi) <==>
      forall a: Address :: lo <= a.pgd < hi ==> Translate(m, copy, a) == Translate(m0, root, a)
  {
    hide KeptTree, PgdShown, CpuPgd;
    KeptTreeMeans(v, m0, s, root, lo, hi);
    forall i1: Index | lo <= i1 < hi
      ensures forall i2: Index, i3: Index, i4: Index ::
          CpuPgd(m, m[copy][i1], i2, i3, i4) == PgdShown(v, m0, m0[root][i1], i2, i3, i4)
    {
      PgdCopiedShows(v, m0, m, m.Keys - m0.Keys, s, m0[root][i1], m[copy][i1]);
    }
    forall i1: Index, i2: Index, i3: Index, i4: Index
      ensures Translate(m, copy, Address(i1, i2, i3, i4)) == CpuPgd(m, m[copy][i1], i2, i3, i4)
      ensures Translate(m0, root, Address(i1, i2, i3, i4)) == CpuPgd(m0, m0[root][i1], i2, i3, i4)
    {
    }
  }

  // ----- A page of physical memory that the copy loses -----

  /** One table at every level but the last; slot 0 of the PMD page maps the first 2 MB of physical
      memory. */
  function LowSample(): Memory {
    map[
      Word(0x1000) := ZeroPage()[256 := Word(0x2003)],
      Word(0x2000) := ZeroPage()[0 := Word(0x3003)],
      Word(0x3000) := ZeroPage()[0 := Word(0x1e3)]]
  }

  lemma LowWords()
    ensures Frame(Word(0x2003)) == Word(0x2000) && Bit(Word(0x2003), 0) && !IsInvalid(Word(0x2003))
    ensures Frame(Word(0x3003)) == Word(0x3000) && Bit(Word(0x3003), 0) && PudTable(Word(0x3003))
    ensures Bit(Word(0x1e3), 0) && Bit(Word(0x1e3), 7) && IsInvalid(Word(0x1e3))
    ensures PmdLarge(Word(0x1e3)) && Writable(Word(0x1e3))
    ensures !Bit(Word(0x2003), 7) && !Bit(Word(0x3003), 7)
    ensures Writable(Word(0x2003)) && Writable(Word(0x3003))
    ensures !Bit(ZERO, 0) && IsInvalid(ZERO)
  {
  }

  lemma {:induction false} LowSampleIn(m: Memory)
    requires forall f :: f in LowSample() ==> f in m && m[f] == LowSample()[f]
    ensures CpuTreeIn(m, {Word(0x2000), Word(0x3000)}, Word(0x1000), ENTRIES / 2, ENTRIES)
  {
    hide Frame, Bit, PudLarge, PmdLarge;
    LowWords();
    forall i: Index ensures CpuPudIn(m, {Word(0x2000), Word(0x3000)}, m[Word(0x2000)][i]) {
      assert forall j: Index :: CpuPmdIn(m, {Word(0x2000), Word(0x3000)}, m[Word(0x3000)][j]);
    }
  }

  /** The sample is harmless to lookups, and its address (256, 0, 0, 0) is mapped for the processor,
      but every copy of it faults there, with either store. */
  lemma {:induction false} LowSampleLost(v: Version, m: Memory, copy: Word)
    requires copy !in LowSample()
    requires RangeCopied(v, LowSample()[copy := ZeroPage()], m, Word(0x1000), copy, ENTRIES / 2, ENTRIES)
    ensures HarmlessTree(LowSample(), Word(0x1000), ENTRIES / 2, ENTRIES)
    ensures Translate(LowSample(), Word(0x1000), Address(256, 0, 0, 0)).Maps?
    ensures Translate(m, copy, Address(256, 0, 0, 0)) == Faults(2)
  {
    hide Frame, Bit, PudLarge, PmdLarge, Writable;
    var m0 := LowSample()[copy := ZeroPage()];
    LowWords();
    LowSampleIn(m0);
    var a := Address(256, 0, 0, 0);
    CopyShows(v, m0, m, {Word(0x2000), Word(0x3000)}, Word(0x1000), copy, ENTRIES / 2, ENTRIES, a);
    var p := m0[Word(0x3000)];
    assert forall i: Index :: IsInvalid(p[i]);
    assert LastTable(p, 0, ENTRIES) == 0;
    assert BothReach(m0, Word(0x1000), 256, 0, Word(0x3000));
  }

  // ----- Later stores -----

  /** No present entry on the way to the PMD page of the address has page frame zero, so that the copy
      shares no table there. */
  predicate SharesNothing(m: Memory, root: Word, a: Address) {
    var e1 := Entry(m, root, a.pgd);
    var e2 := Entry(m, Frame(e1), a.pud);
    Bit(e1, 0) ==> !IsInvalid(e1) && (Bit(e2, 0) ==> PudTable(e2) || PudLarge(e2))
  }

  /** Whatever is stored in the pages of the old tree after a deep copy, the processor translates
      such an address of the copy as before. */
  lemma {:induction false} SnapshotHoldsForCpu(v: Version, m0: Memory, m: Memory, root: Word, copy: Word, lo: nat,
      hi: nat, ws: seq<Store>, a: Address)
    requires RangeCopied(v, m0, m, root, copy, lo, hi) && lo <= a.pgd < hi && SharesNothing(m0, root, a)
    requires forall i :: 0 <= i < |ws| ==> ws[i].page in m0 && ws[i].page != copy
    ensures Translate(AfterStores(m, ws), copy, a) == Translate(m, copy, a)
  {
    hide AfterStores;
    var n, m', e0 := m.Keys - m0.Keys, AfterStores(m, ws), m0[root][a.pgd];
    StoresKeep(m, ws, n + {copy});
    var e := m[copy][a.pgd];
    if !IsInvalid(e0) {
      RetargetRights(Frame(e), e0);
      var d0, d := m0[Frame(e0)][a.pud], m[Frame(e)][a.pud];
      if PudTable(d0) {
        CpuPmdKept(m, m', n, m[Frame(d)][a.pmd]);
      } else if Bit(e0, 0) {
        assert PudLarge(d) || !Bit(d, 0);
      }
    }
  }
}
