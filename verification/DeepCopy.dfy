/** The loops that build a deep copy of the paging tree in CR3, one method per loop, and the
    three entry points that run them over one half of the address space. */
module DeepCopy {
  import opened PageWords
  import opened PageTables
  import opened CopyRelation
  import opened CopyTidy
  import opened PhysicalMemory
  import opened Wrappers

  /** The machine has n fewer pages to give out and n more in use. */
  twostate predicate Spent(k: Machine, n: nat)
    reads k
  {
    && Honest(k.answers, k.mem.Keys)
    && old(k.mem).Keys <= k.mem.Keys
    && |k.mem.Keys| == |old(k.mem).Keys| + n
    && Successes(k.answers) == old(Successes(k.answers)) - n
  }

  /** Fills a PTE page entry by entry. */
  method CopyPtePage(k: Machine, pteOld: Word, pteNew: Word)
    requires pteOld in k.mem && pteNew in k.mem && pteOld != pteNew
    modifies k`mem
    ensures k.mem.Keys == old(k.mem).Keys && Kept(old(k.mem), k.mem, old(k.mem).Keys - {pteNew})
    ensures k.mem[pteNew] == old(k.mem)[pteOld]
  {
    for i4 := 0 to ENTRIES
      invariant k.mem.Keys == old(k.mem).Keys && Kept(old(k.mem), k.mem, old(k.mem).Keys - {pteNew})
      invariant k.mem[pteNew][..i4] == old(k.mem)[pteOld][..i4]
    {
      k.SetEntry(pteNew, i4, k.mem[pteOld][i4]);
      k.SetEntry(pteNew, i4, k.mem[pteOld][i4]);
    }
    assert k.mem[pteNew] == k.mem[pteNew][..ENTRIES] == old(k.mem)[pteOld][..ENTRIES] == old(k.mem)[pteOld];
  }

  /** Copies the PTE page entry e points at, and stores the new table both in slot i3 and in slot at. */
  method CopyPmdTable(k: Machine, e: Word, pmdNew: Word, at: Index, i3: Index, count: nat)
    returns (a: Word, count': nat)
    requires Honest(k.answers, k.mem.Keys) && Successes(k.answers) > 0
    requires pmdNew in k.mem && Frame(e) in k.mem && Frame(e) != pmdNew
    modifies k`mem, k`answers
    ensures Spent(k, 1) && count' == count + 1
    ensures IsFrame(a) && a in k.mem && a !in old(k.mem)
    ensures Kept(old(k.mem), k.mem, old(k.mem).Keys - {pmdNew})
    ensures k.mem[a] == old(k.mem)[Frame(e)]
    ensures k.mem[pmdNew] == old(k.mem)[pmdNew][i3 := Retarget(a, e)][at := Retarget(a, e)]
  {
    a, count' := k.AllocatePage(count);
    k.SetEntry(pmdNew, i3, Retarget(a, e));
    k.SetEntry(pmdNew, at, Retarget(a, e));
    CopyPtePage(k, Frame(e), a);
  }

  /** What handling slot i3 does to the page being filled: entry e goes to slot i3, and if the
      old slot held a table also to slot at. */
  function StrayStore(p: Page, e0: Word, at: Index, i3: Index, e: Word): Page {
    if PmdTable(e0) then p[i3 := e][at := e] else p[i3 := e]
  }

  /** An assignment followed by the macro for the same assignment. */
  method SetEntryTwice(k: Machine, f: Word, i: Index, e: Word)
    requires f in k.mem
    modifies k`mem
    ensures k.mem.Keys == old(k.mem).Keys && Kept(old(k.mem), k.mem, old(k.mem).Keys - {f})
    ensures k.mem[f] == old(k.mem)[f][i := e]
  {
    k.SetEntry(f, i, e);
    k.SetEntry(f, i, e);
  }

  /** Fills slot i3 of a PMD page; a table is stored in slot at as well. */
  method CopyPmdSlot(k: Machine, pmdOld: Word, pmdNew: Word, at: Index, i3: Index, count: nat, ghost s: set<Word>)
    returns (count': nat)
    requires Honest(k.answers, k.mem.Keys)
    requires pmdOld in k.mem && pmdOld != pmdNew && PmdEntryIn(k.mem, s, k.mem[pmdOld][i3])
    requires pmdNew in k.mem && pmdNew !in s
    requires Successes(k.answers) >= PmdSlotNeed(k.mem[pmdOld][i3])
    modifies k`mem, k`answers
    ensures Spent(k, PmdSlotNeed(old(k.mem)[pmdOld][i3]))
    ensures count' == count + PmdSlotNeed(old(k.mem)[pmdOld][i3])
    ensures Kept(old(k.mem), k.mem, old(k.mem).Keys - {pmdNew})
    ensures PmdCopied(old(k.mem), k.mem, k.mem.Keys - old(k.mem).Keys, old(k.mem)[pmdOld][i3], k.mem[pmdNew][i3])
    ensures k.mem[pmdNew] == StrayStore(old(k.mem)[pmdNew], old(k.mem)[pmdOld][i3], at, i3, k.mem[pmdNew][i3])
  {
    hide Frame, Retarget, PmdLarge, Honest, Successes;
    var e := k.mem[pmdOld][i3];
    ghost var m0 := k.mem;
    count' := count;
    SetEntryTwice(k, pmdNew, i3, e);
    if IsInvalid(e) {
      k.SetEntry(pmdNew, i3, ZERO);
      assert k.mem[pmdNew] == m0[pmdNew][i3 := ZERO];
    } else if PmdLarge(e) {
      k.SetEntry(pmdNew, i3, e);
    } else {
      var a;
      a, count' := CopyPmdTable(k, e, pmdNew, at, i3, count');
      RetargetFrame(a, e);
      assert k.mem[pmdNew] == m0[pmdNew][i3 := Retarget(a, e)][at := Retarget(a, e)];
    }
  }

  /** Slots copied earlier stay copies, or show the table just stored. */
  lemma {:induction false} PmdLoopStep(m0: Memory, m: Memory, m': Memory, s: set<Word>, pmdOld: Word, pmdNew: Word,
      x: Option<Index>, i3: Index)
    requires PmdPageIn(m0, s, pmdOld) && pmdNew in m0 && pmdNew !in s
    requires m0.Keys <= m.Keys <= m'.Keys
    requires Kept(m0, m, m0.Keys - {pmdNew}) && Kept(m, m', m.Keys - {pmdNew})
    requires m'[pmdNew] == StrayStore(m[pmdNew], m0[pmdOld][i3], StoreSlot(x, i3), i3, m'[pmdNew][i3])
    requires PmdCopied(m, m', m'.Keys - m.Keys, m0[pmdOld][i3], m'[pmdNew][i3])
    requires forall j: Index :: j < i3 ==>
      PmdCopied(m0, m, m.Keys - m0.Keys, m0[pmdOld][Source(m0[pmdOld], x, j, i3)], m[pmdNew][j])
    ensures forall j: Index :: j < i3 + 1 ==>
      PmdCopied(m0, m', m'.Keys - m0.Keys, m0[pmdOld][Source(m0[pmdOld], x, j, i3 + 1)], m'[pmdNew][j])
  {
    var p0 := m0[pmdOld];
    PmdCopiedCarries(m0, m, m', m', s, m'.Keys - m.Keys, m'.Keys - m0.Keys, p0[i3], m'[pmdNew][i3]);
    forall j: Index | j < i3
      ensures PmdCopied(m0, m', m'.Keys - m0.Keys, p0[Source(p0, x, j, i3 + 1)], m'[pmdNew][j])
    {
      if x != Some(j) || !PmdTable(p0[i3]) {
        PmdCopiedCarries(m0, m0, m, m', s, m.Keys - m0.Keys, m'.Keys - m0.Keys, p0[Source(p0, x, j, i3)], m[pmdNew][j]);
      }
    }
  }

  /** Fills a PMD page; x is its stray slot, if it has one. */
  method CopyPmdPage(k: Machine, pmdOld: Word, pmdNew: Word, x: Option<Index>, count: nat, ghost s: set<Word>)
    returns (count': nat)
    requires Honest(k.answers, k.mem.Keys)
    requires PmdPageIn(k.mem, s, pmdOld) && pmdNew in k.mem && pmdNew !in s
    requires Successes(k.answers) >= PmdNeed(k.mem[pmdOld], ENTRIES)
    modifies k`mem, k`answers
    ensures Spent(k, PmdNeed(old(k.mem)[pmdOld], ENTRIES))
    ensures count' == count + PmdNeed(old(k.mem)[pmdOld], ENTRIES)
    ensures Kept(old(k.mem), k.mem, old(k.mem).Keys - {pmdNew})
    ensures PmdPageCopied(old(k.mem), k.mem, k.mem.Keys - old(k.mem).Keys, pmdOld, pmdNew, x)
    ensures PmdApart(k.mem[pmdNew], x, ENTRIES)
  {
    hide PmdCopied, PmdSlotNeed, Honest, Successes, PmdApart;
    NoSlots(k.mem[pmdNew], x);
    ghost var m0, p0 := k.mem, k.mem[pmdOld];
    count' := count;
    for i3 := 0 to ENTRIES
      invariant Spent(k, PmdNeed(p0, i3)) && count' == count + PmdNeed(p0, i3)
      invariant Kept(m0, k.mem, m0.Keys - {pmdNew})
      invariant forall j: Index :: j < i3 ==>
        PmdCopied(m0, k.mem, k.mem.Keys - m0.Keys, p0[Source(p0, x, j, i3)], k.mem[pmdNew][j])
      invariant PmdApart(k.mem[pmdNew], x, i3)
    {
      PmdNeedGrows(p0, i3 + 1, ENTRIES);
      ghost var before := k.mem;
      PmdEntryKept(m0, before, s, p0[i3]);
      count' := CopyPmdSlot(k, pmdOld, pmdNew, StoreSlot(x, i3), i3, count', s);
      PmdLoopStep(m0, before, k.mem, s, pmdOld, pmdNew, x, i3);
      PmdApartStep(m0, before, k.mem, p0, pmdNew, x, i3);
    }
  }

  /** Copies the PMD page entry e points at and stores the new table in slot i2. */
  method CopyPudTable(k: Machine, v: Version, e: Word, pudNew: Word, i2: Index, count: nat, ghost s: set<Word>)
    returns (count': nat)
    requires Honest(k.answers, k.mem.Keys) && s <= k.mem.Keys
    requires PudTable(e) && PudEntryIn(k.mem, s, e)
    requires pudNew in k.mem && pudNew !in s
    requires Successes(k.answers) >= PudSlotNeed(k.mem, e)
    modifies k`mem, k`answers
    ensures Spent(k, PudSlotNeed(old(k.mem), e))
    ensures count' == count + PudSlotNeed(old(k.mem), e)
    ensures Kept(old(k.mem), k.mem, old(k.mem).Keys - {pudNew})
    ensures PudCopied(old(k.mem), k.mem, k.mem.Keys - old(k.mem).Keys, e, k.mem[pudNew][i2], Stray(v, i2))
    ensures PudEntryApart(k.mem, k.mem[pudNew][i2], Stray(v, i2))
    ensures k.mem[pudNew] == old(k.mem)[pudNew][i2 := k.mem[pudNew][i2]]
  {
    hide Frame, Retarget, PudLarge, PmdLarge, IsInvalid, Honest, Successes, PmdPageCopied, PudCopied, PmdEntryIn,
        PmdNeed, PmdApart, PudEntryApart;
    ghost var m0 := k.mem;
    var a;
    a, count' := k.AllocatePage(count);
    SetEntryTwice(k, pudNew, i2, Retarget(a, e));
    ghost var m1 := k.mem;
    PudEntryKept(m0, m1, s, e);
    assert m1[pudNew] == m0[pudNew][i2 := Retarget(a, e)];
    count' := CopyPmdPage(k, Frame(e), a, Stray(v, i2), count', s);
    assert k.mem[pudNew] == m1[pudNew];
    PudSlotCopied(m0, m1, k.mem, s, e, Stray(v, i2), a);
    PudEntryFilled(m1, k.mem, e, a, Frame(e), Stray(v, i2));
  }

  /** Fills slot i2 of a PUD page. */
  method CopyPudSlot(k: Machine, v: Version, pudOld: Word, pudNew: Word, i2: Index, count: nat, ghost s: set<Word>)
    returns (count': nat)
    requires Honest(k.answers, k.mem.Keys) && s <= k.mem.Keys
    requires pudOld in k.mem && pudOld != pudNew && PudEntryIn(k.mem, s, k.mem[pudOld][i2])
    requires pudNew in k.mem && pudNew !in s
    requires Successes(k.answers) >= PudSlotNeed(k.mem, k.mem[pudOld][i2])
    modifies k`mem, k`answers
    ensures Spent(k, PudSlotNeed(old(k.mem), old(k.mem)[pudOld][i2]))
    ensures count' == count + PudSlotNeed(old(k.mem), old(k.mem)[pudOld][i2])
    ensures Kept(old(k.mem), k.mem, old(k.mem).Keys - {pudNew})
    ensures PudCopied(old(k.mem), k.mem, k.mem.Keys - old(k.mem).Keys, old(k.mem)[pudOld][i2], k.mem[pudNew][i2],
        Stray(v, i2))
    ensures PudEntryApart(k.mem, k.mem[pudNew][i2], Stray(v, i2))
    ensures k.mem[pudNew] == old(k.mem)[pudNew][i2 := k.mem[pudNew][i2]]
  {
    hide PmdApart;
    var e := k.mem[pudOld][i2];
    ghost var m0 := k.mem;
    count' := count;
    k.SetEntry(pudNew, i2, e);
    PudEntryKept(m0, k.mem, s, e);
    if IsInvalid(e) {
    } else if PudLarge(e) {
      k.SetEntry(pudNew, i2, e);
    } else {
      ghost var m1 := k.mem;
      count' := CopyPudTable(k, v, e, pudNew, i2, count', s);
      PudCopiedCarries(m0, m1, k.mem, k.mem, s, k.mem.Keys - m1.Keys, k.mem.Keys - m0.Keys, e, k.mem[pudNew][i2],
          Stray(v, i2));
    }
  }

  /** A PUD slot that points at a freshly filled PMD page is a copy of the old slot. */
  lemma {:induction false} PudSlotCopied(m0: Memory, m1: Memory, m: Memory, s: set<Word>, e: Word,
      x: Option<Index>, a: Word)
    requires PudTable(e) && PudEntryIn(m0, s, e) && Kept(m0, m1, s)
    requires IsFrame(a) && a !in m0 && a in m1 && m0.Keys <= m1.Keys <= m.Keys
    requires PmdPageCopied(m1, m, m.Keys - m1.Keys, Frame(e), a, x)
    ensures PudCopied(m0, m, m.Keys - m0.Keys, e, Retarget(a, e), x)
  {
    RetargetFrame(a, e);
    var n := m.Keys - m1.Keys + {a};
    forall j: Index ensures PmdCopied(m1, m, n, m1[Frame(e)][Source(m1[Frame(e)], x, j, ENTRIES)], m[a][j]) {
      var e0 := m1[Frame(e)][Source(m1[Frame(e)], x, j, ENTRIES)];
      PudEntryKept(m0, m1, s, e);
      PmdCopiedCarries(m1, m1, m, m, s, m.Keys - m1.Keys, n, e0, m[a][j]);
    }
    assert PudCopied(m1, m, n, e, Retarget(a, e), x);
    PudCopiedCarries(m0, m1, m, m, s, n, m.Keys - m0.Keys, e, Retarget(a, e), x);
  }

  lemma {:induction false} PudLoopStep(v: Version, m0: Memory, m: Memory, m': Memory, s: set<Word>, pudOld: Word,
      pudNew: Word, i2: Index)
    requires PudPageIn(m0, s, pudOld) && pudNew in m0 && pudNew !in s
    requires m0.Keys <= m.Keys <= m'.Keys
    requires Kept(m0, m, m0.Keys - {pudNew}) && Kept(m, m', m.Keys - {pudNew}) && Kept(m0, m, s)
    requires m'[pudNew] == m[pudNew][i2 := m'[pudNew][i2]]
    requires PudCopied(m, m', m'.Keys - m.Keys, m0[pudOld][i2], m'[pudNew][i2], Stray(v, i2))
    requires forall j: Index :: j < i2 ==>
      PudCopied(m0, m, m.Keys - m0.Keys, m0[pudOld][j], m[pudNew][j], Stray(v, j))
    ensures forall j: Index :: j < i2 + 1 ==>
      PudCopied(m0, m', m'.Keys - m0.Keys, m0[pudOld][j], m'[pudNew][j], Stray(v, j))
  {
    PudCopiedCarries(m0, m, m', m', s, m'.Keys - m.Keys, m'.Keys - m0.Keys, m0[pudOld][i2], m'[pudNew][i2],
        Stray(v, i2));
    forall j: Index | j < i2
      ensures PudCopied(m0, m', m'.Keys - m0.Keys, m0[pudOld][j], m'[pudNew][j], Stray(v, j))
    {
      PudCopiedCarries(m0, m0, m, m', s, m.Keys - m0.Keys, m'.Keys - m0.Keys, m0[pudOld][j], m[pudNew][j], Stray(v, j));
    }
  }

  /** Fills a PUD page. */
  method CopyPudPage(k: Machine, v: Version, pudOld: Word, pudNew: Word, count: nat, ghost s: set<Word>)
    returns (count': nat)
    requires Honest(k.answers, k.mem.Keys) && s <= k.mem.Keys
    requires PudPageIn(k.mem, s, pudOld) && pudNew in k.mem && pudNew !in s
    requires Successes(k.answers) >= PudNeed(k.mem, k.mem[pudOld], ENTRIES)
    modifies k`mem, k`answers
    ensures Spent(k, PudNeed(old(k.mem), old(k.mem)[pudOld], ENTRIES))
    ensures count' == count + PudNeed(old(k.mem), old(k.mem)[pudOld], ENTRIES)
    ensures Kept(old(k.mem), k.mem, old(k.mem).Keys - {pudNew})
    ensures PudPageCopied(v, old(k.mem), k.mem, k.mem.Keys - old(k.mem).Keys, pudOld, pudNew)
    ensures PudApart(v, k.mem, k.mem[pudNew], ENTRIES)
  {
    hide PudCopied, PmdNeed, Honest, Successes, PudApart, PudEntryApart;
    NoPudSlots(v, k.mem, k.mem[pudNew]);
    ghost var m0, p0 := k.mem, k.mem[pudOld];
    count' := count;
    for i2 := 0 to ENTRIES
      invariant Spent(k, PudNeed(m0, p0, i2)) && count' == count + PudNeed(m0, p0, i2)
      invariant Kept(m0, k.mem, m0.Keys - {pudNew})
      invariant forall j: Index :: j < i2 ==>
        PudCopied(m0, k.mem, k.mem.Keys - m0.Keys, p0[j], k.mem[pudNew][j], Stray(v, j))
      invariant PudApart(v, k.mem, k.mem[pudNew], i2)
    {
      PudNeedGrows(m0, p0, i2 + 1, ENTRIES);
      ghost var before := k.mem;
      PudEntryKept(m0, before, s, p0[i2]);
      assert PudSlotNeed(before, p0[i2]) == PudSlotNeed(m0, p0[i2]);
      count' := CopyPudSlot(k, v, pudOld, pudNew, i2, count', s);
      PudLoopStep(v, m0, before, k.mem, s, pudOld, pudNew, i2);
      PudApartStep(v, m0, before, k.mem, p0, pudNew, i2);
    }
  }

  /** Copies the PUD page entry e points at and stores the new table in slot i1. */
  method CopyPgdTable(k: Machine, v: Version, e: Word, pgdNew: Word, i1: Index, count: nat, ghost s: set<Word>)
    returns (count': nat)
    requires Honest(k.answers, k.mem.Keys) && s <= k.mem.Keys
    requires !IsInvalid(e) && PgdEntryIn(k.mem, s, e)
    requires pgdNew in k.mem && pgdNew !in s
    requires Successes(k.answers) >= PgdSlotNeed(k.mem, e)
    modifies k`mem, k`answers
    ensures Spent(k, PgdSlotNeed(old(k.mem), e))
    ensures count' == count + PgdSlotNeed(old(k.mem), e)
    ensures Kept(old(k.mem), k.mem, old(k.mem).Keys - {pgdNew})
    ensures PgdCopied(v, old(k.mem), k.mem, k.mem.Keys - old(k.mem).Keys, e, k.mem[pgdNew][i1])
    ensures PgdEntryApart(v, k.mem, k.mem[pgdNew][i1])
    ensures k.mem[pgdNew] == old(k.mem)[pgdNew][i1 := k.mem[pgdNew][i1]]
  {
    hide PudApart, PgdEntryApart;
    ghost var m0 := k.mem;
    var a;
    a, count' := k.AllocatePage(count);
    k.SetEntry(pgdNew, i1, Retarget(a, e));
    ghost var m1 := k.mem;
    PgdEntryKept(m0, m1, s, e);
    PgdSlotNeedKept(m0, m1, s, e);
    assert m1[pgdNew] == m0[pgdNew][i1 := Retarget(a, e)];
    count' := CopyPudPage(k, v, Frame(e), a, count', s);
    assert k.mem[pgdNew] == m1[pgdNew];
    PgdSlotCopied(v, m0, m1, k.mem, s, e, a);
    PgdEntryFilled(v, m1, k.mem, e, a, Frame(e));
  }

  /** Fills slot i1 of a PGD page. */
  method CopyPgdSlot(k: Machine, v: Version, pgdOld: Word, pgdNew: Word, i1: Index, count: nat, ghost s: set<Word>)
    returns (count': nat)
    requires Honest(k.answers, k.mem.Keys) && s <= k.mem.Keys
    requires pgdOld in k.mem && PgdEntryIn(k.mem, s, k.mem[pgdOld][i1])
    requires pgdNew in k.mem && pgdNew !in s && pgdNew != pgdOld
    requires Successes(k.answers) >= PgdSlotNeed(k.mem, k.mem[pgdOld][i1])
    modifies k`mem, k`answers
    ensures Spent(k, PgdSlotNeed(old(k.mem), old(k.mem)[pgdOld][i1]))
    ensures count' == count + PgdSlotNeed(old(k.mem), old(k.mem)[pgdOld][i1])
    ensures Kept(old(k.mem), k.mem, old(k.mem).Keys - {pgdNew})
    ensures PgdCopied(v, old(k.mem), k.mem, k.mem.Keys - old(k.mem).Keys, old(k.mem)[pgdOld][i1], k.mem[pgdNew][i1])
    ensures PgdEntryApart(v, k.mem, k.mem[pgdNew][i1])
    ensures k.mem[pgdNew] == old(k.mem)[pgdNew][i1 := k.mem[pgdNew][i1]]
  {
    hide PudApart;
    var e := k.mem[pgdOld][i1];
    ghost var m0 := k.mem;
    count' := count;
    k.SetEntry(pgdNew, i1, e);
    PgdEntryKept(m0, k.mem, s, e);
    PgdSlotNeedKept(m0, k.mem, s, e);
    if IsInvalid(e) {
    } else {
      ghost var m1 := k.mem;
      count' := CopyPgdTable(k, v, e, pgdNew, i1, count', s);
      PgdCopiedCarries(v, m0, m1, k.mem, k.mem, s, k.mem.Keys - m1.Keys, k.mem.Keys - m0.Keys, e, k.mem[pgdNew][i1]);
    }
  }

  /** A PGD slot that points at a freshly filled PUD page is a copy of the old slot. */
  lemma {:induction false} PgdSlotCopied(v: Version, m0: Memory, m1: Memory, m: Memory, s: set<Word>, e: Word, a: Word)
    requires !IsInvalid(e) && PgdEntryIn(m0, s, e) && Kept(m0, m1, s)
    requires IsFrame(a) && a !in m0 && a in m1 && m0.Keys <= m1.Keys <= m.Keys
    requires PudPageCopied(v, m1, m, m.Keys - m1.Keys, Frame(e), a)
    ensures PgdCopied(v, m0, m, m.Keys - m0.Keys, e, Retarget(a, e))
  {
    RetargetFrame(a, e);
    var n := m.Keys - m1.Keys + {a};
    forall j: Index ensures PudCopied(m1, m, n, m1[Frame(e)][j], m[a][j], Stray(v, j)) {
      PgdEntryKept(m0, m1, s, e);
      PudCopiedCarries(m1, m1, m, m, s, m.Keys - m1.Keys, n, m1[Frame(e)][j], m[a][j], Stray(v, j));
    }
    assert PgdCopied(v, m1, m, n, e, Retarget(a, e));
    PgdCopiedCarries(v, m0, m1, m, m, s, n, m.Keys - m0.Keys, e, Retarget(a, e));
  }

  lemma {:induction false} PgdLoopStep(v: Version, m0: Memory, m: Memory, m': Memory, s: set<Word>, root: Word,
      copy: Word, lo: nat, i1: Index)
    requires lo <= i1 && TreeIn(m0, s, root, lo, i1 + 1)
    requires copy !in s && s <= m0.Keys && copy != root
    requires RangeCopied(v, m0, m, root, copy, lo, i1)
    requires m.Keys <= m'.Keys && Kept(m, m', m.Keys - {copy})
    requires m'[copy] == m[copy][i1 := m'[copy][i1]]
    requires PgdCopied(v, m, m', m'.Keys - m.Keys, m0[root][i1], m'[copy][i1])
    ensures RangeCopied(v, m0, m', root, copy, lo, i1 + 1)
  {
    PgdCopiedCarries(v, m0, m, m', m', s, m'.Keys - m.Keys, m'.Keys - m0.Keys, m0[root][i1], m'[copy][i1]);
    forall j: Index | lo <= j < i1
      ensures PgdCopied(v, m0, m', m'.Keys - m0.Keys, m0[root][j], m'[copy][j])
    {
      PgdCopiedCarries(v, m0, m0, m, m', s, m.Keys - m0.Keys, m'.Keys - m0.Keys, m0[root][j], m[copy][j]);
    }
  }

  /** Fills slots lo..hi of the PGD page pgdNew from the tree in CR3. */
  method CopyRange(k: Machine, v: Version, pgdNew: Word, lo: nat, hi: nat, count: nat, ghost s: set<Word>)
      returns (count': nat)
    requires lo <= hi <= ENTRIES
    requires Honest(k.answers, k.mem.Keys) && s <= k.mem.Keys
    requires TreeIn(k.mem, s, k.cr3, lo, hi)
    requires pgdNew in k.mem && pgdNew !in s && pgdNew != k.cr3
    requires Successes(k.answers) >= PgdNeed(k.mem, k.mem[k.cr3], lo, hi)
    modifies k`mem, k`answers
    ensures Spent(k, PgdNeed(old(k.mem), old(k.mem)[k.cr3], lo, hi))
    ensures count' == count + PgdNeed(old(k.mem), old(k.mem)[k.cr3], lo, hi)
    ensures RangeCopied(v, old(k.mem), k.mem, k.cr3, pgdNew, lo, hi)
    ensures PgdApart(v, k.mem, k.mem[pgdNew], lo, hi)
  {
    hide PgdCopied, PgdSlotNeed, Honest, Successes, PgdApart, PgdEntryApart;
    NoPgdSlots(v, k.mem, k.mem[pgdNew], lo);
    ghost var m0, p0 := k.mem, k.mem[k.cr3];
    count' := count;
    for i1 := lo to hi
      invariant Spent(k, PgdNeed(m0, p0, lo, i1)) && count' == count + PgdNeed(m0, p0, lo, i1)
      invariant RangeCopied(v, m0, k.mem, k.cr3, pgdNew, lo, i1)
      invariant PgdApart(v, k.mem, k.mem[pgdNew], lo, i1)
    {
      PgdNeedGrows(m0, p0, lo, i1 + 1, hi);
      ghost var before := k.mem;
      PgdEntryKept(m0, before, s, p0[i1]);
      PgdSlotNeedKept(m0, before, s, p0[i1]);
      count' := CopyPgdSlot(k, v, k.cr3, pgdNew, i1, count', s);
      PgdLoopStep(v, m0, before, k.mem, s, k.cr3, pgdNew, lo, i1);
      PgdApartStep(v, m0, before, k.mem, p0, pgdNew, lo, i1);
    }
  }

  /** Makes a new root whose upper half is a copy of the upper half of the tree in CR3. */
  method CopyPagetable(k: Machine, ghost s: set<Word>) returns (root: Word, count: nat)
    requires Honest(k.answers, k.mem.Keys) && s <= k.mem.Keys
    requires TreeIn(k.mem, s, k.cr3, ENTRIES / 2, ENTRIES)
    requires Successes(k.answers) >= 1 + PgdNeed(k.mem, k.mem[k.cr3], ENTRIES / 2, ENTRIES)
    modifies k`mem, k`answers
    ensures Spent(k, count)
    ensures count == 1 + PgdNeed(old(k.mem), old(k.mem)[k.cr3], ENTRIES / 2, ENTRIES)
    ensures IsFrame(root) && root !in old(k.mem)
    ensures RangeCopied(Shipped, old(k.mem)[root := ZeroPage()], k.mem, k.cr3, root, ENTRIES / 2, ENTRIES)
    ensures PgdApart(Shipped, k.mem, k.mem[root], ENTRIES / 2, ENTRIES)
  {
    root, count := k.AllocatePage(0);
    ghost var m0, m1 := old(k.mem), k.mem;
    assert m1 == m0[root := ZeroPage()];
    forall i: Index | ENTRIES / 2 <= i ensures PgdEntryIn(m1, s, m1[k.cr3][i]) {
      PgdEntryKept(m0, m1, s, m0[k.cr3][i]);
    }
    PgdNeedKept(m0, m1, s, m0[k.cr3], ENTRIES / 2, ENTRIES);
    count := CopyRange(k, Shipped, root, ENTRIES / 2, ENTRIES, count, s);
  }

  lemma {:induction false} PgdNeedKept(m: Memory, m': Memory, s: set<Word>, p: Page, lo: nat, n: nat)
    requires lo <= n <= ENTRIES && Kept(m, m', s)
    requires forall i: Index :: lo <= i < n ==> PgdEntryIn(m, s, p[i])
    ensures PgdNeed(m', p, lo, n) == PgdNeed(m, p, lo, n)
  {
    if n > lo {
      PgdSlotNeedKept(m, m', s, p[n - 1]);
      PgdNeedKept(m, m', s, p, lo, n - 1);
    }
  }

  /** Refills the upper half of an existing root. */
  method CopyPagetableHalf(k: Machine, pgdNew: Word, ghost s: set<Word>) returns (count: nat)
    requires Honest(k.answers, k.mem.Keys) && s <= k.mem.Keys
    requires TreeIn(k.mem, s, k.cr3, ENTRIES / 2, ENTRIES)
    requires pgdNew in k.mem && pgdNew !in s && pgdNew != k.cr3
    requires Successes(k.answers) >= PgdNeed(k.mem, k.mem[k.cr3], ENTRIES / 2, ENTRIES)
    modifies k`mem, k`answers
    ensures Spent(k, count) && count == PgdNeed(old(k.mem), old(k.mem)[k.cr3], ENTRIES / 2, ENTRIES)
    ensures RangeCopied(Shipped, old(k.mem), k.mem, k.cr3, pgdNew, ENTRIES / 2, ENTRIES)
    ensures PgdApart(Shipped, k.mem, k.mem[pgdNew], ENTRIES / 2, ENTRIES)
  {
    count := CopyRange(k, Shipped, pgdNew, ENTRIES / 2, ENTRIES, 0, s);
  }

  /** Refills the lower half of an existing root. */
  method UpdatePagetable2(k: Machine, pgdNew: Word, ghost s: set<Word>) returns (count: nat)
    requires Honest(k.answers, k.mem.Keys) && s <= k.mem.Keys
    requires TreeIn(k.mem, s, k.cr3, 0, ENTRIES / 2)
    requires pgdNew in k.mem && pgdNew !in s && pgdNew != k.cr3
    requires Successes(k.answers) >= PgdNeed(k.mem, k.mem[k.cr3], 0, ENTRIES / 2)
    modifies k`mem, k`answers
    ensures Spent(k, count) && count == PgdNeed(old(k.mem), old(k.mem)[k.cr3], 0, ENTRIES / 2)
    ensures RangeCopied(Shipped, old(k.mem), k.mem, k.cr3, pgdNew, 0, ENTRIES / 2)
    ensures PgdApart(Shipped, k.mem, k.mem[pgdNew], 0, ENTRIES / 2)
  {
    count := CopyRange(k, Shipped, pgdNew, 0, ENTRIES / 2, 0, s);
  }

  /** Shares the upper half of the tree in CR3.  Each entry is stored before the copy is
      examined, so the branch that would allocate is never taken. */
  method UpdatePagetable(k: Machine, pgdNew: Word)
    requires k.cr3 in k.mem && pgdNew in k.mem
    modifies k`mem
    ensures k.mem.Keys == old(k.mem).Keys && Kept(old(k.mem), k.mem, old(k.mem).Keys - {pgdNew})
    ensures forall j: Index :: k.mem[pgdNew][j] == old(k.mem)[if j < ENTRIES / 2 then pgdNew else k.cr3][j]
  {
    for i1 := ENTRIES / 2 to ENTRIES
      invariant k.mem.Keys == old(k.mem).Keys && Kept(old(k.mem), k.mem, old(k.mem).Keys - {pgdNew})
      invariant forall j: Index ::
        k.mem[pgdNew][j] == old(k.mem)[if ENTRIES / 2 <= j < i1 then k.cr3 else pgdNew][j]
    {
      k.SetEntry(pgdNew, i1, k.mem[k.cr3][i1]);
      var b := IsInvalid(k.mem[k.cr3][i1]);
      var c := IsInvalid(k.mem[pgdNew][i1]);
      if b || (!b && !c) {
        continue;
      }
      assert false;
    }
  }
}
