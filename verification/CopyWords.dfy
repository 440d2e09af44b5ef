/** What a deep copy holds, word for word and with the bits written out. */
module CopyWords {
  import opened PageWords
  import opened PageTables
  import opened CopyRelation
  import opened CopyTheorems
  import opened Wrappers

  /** The page that an entry points at. */
  function Target(e: Word): Word {
    Word(e.bits & 0x0000_ffff_ffff_f000)
  }

  /** The entry points at a page that the copy has added and keeps the other bits of the old one, but for
      bits 48 to 57. */
  ghost predicate Moved(m0: Memory, m: Memory, e0: Word, e: Word) {
    && Target(e) in m && Target(e) !in m0
    && e.bits == Target(e).bits | (e0.bits & 0xfc00_0000_0000_0fff)
  }

  /** Slot i3 of the copy of this page is taken from slot j: the two differ only where the shipped code
      stores each table at i2 as well, and then j is the last slot with a table. */
  predicate TakenFrom(v: Version, p: Page, i2: Index, i3: Index, j: Index) {
    && (v == Corrected || i3 != i2 ==> j == i3)
    && (j != i3 ==> i2 < j && HoldsTable(p[j]))
    && (v == Shipped && i3 == i2 ==> j >= i2 && forall k: Index :: j < k ==> !HoldsTable(p[k]))
  }

  predicate HoldsTable(e: Word) {
    e.bits & 0x0000_ffff_ffff_f000 != 0 && e.bits & 0x80 == 0
  }

  // Entry c of the copy for entry e of the old tree, at the level of the PMD, the PUD and the root.

  ghost predicate PmdHeld(m0: Memory, m: Memory, e: Word, c: Word) {
    if e.bits & 0x0000_ffff_ffff_f000 == 0 then c.bits == 0
    else if e.bits & 0x80 != 0 then c == e
    else Moved(m0, m, e, c) && Target(e) in m0 && m[Target(c)] == m0[Target(e)]
  }

  ghost predicate PudHeld(v: Version, m0: Memory, m: Memory, e: Word, c: Word, i2: Index) {
    if e.bits & 0x0000_ffff_ffff_f000 == 0 || e.bits & 0x81 == 0x81 then c == e
    else
      && Moved(m0, m, e, c) && Target(e) in m0
      && forall i3: Index :: SlotHeld(v, m0, m, m0[Target(e)], i2, i3, m[Target(c)][i3])
  }

  ghost predicate SlotHeld(v: Version, m0: Memory, m: Memory, p: Page, i2: Index, i3: Index, c: Word) {
    exists j: Index :: TakenFrom(v, p, i2, i3, j) && PmdHeld(m0, m, p[j], c)
  }

  ghost predicate PgdHeld(v: Version, m0: Memory, m: Memory, e: Word, c: Word) {
    if e.bits & 0x0000_ffff_ffff_f000 == 0 then c == e
    else
      && Moved(m0, m, e, c) && Target(e) in m0
      && forall i2: Index :: PudHeld(v, m0, m, m0[Target(e)][i2], m[Target(c)][i2], i2)
  }

  lemma TargetIsFrame(e: Word)
    ensures Target(e) == Frame(e)
  {
  }

  lemma RetargetedBits(p: Word, e: Word)
    ensures Retarget(p, e).bits == p.bits | (e.bits & 0xfc00_0000_0000_0fff)
  {
  }

  lemma RepointedMoves(m0: Memory, m: Memory, e: Word, c: Word)
    requires Repointed(m.Keys - m0.Keys, e, c)
    ensures Moved(m0, m, e, c) && Target(c) == Frame(c) && Target(e) == Frame(e)
  {
    hide Target, Frame, Retarget, IsFrame;
    TargetIsFrame(e);
    TargetIsFrame(c);
    RetargetedBits(Frame(c), e);
  }

  lemma PmdWords(m0: Memory, m: Memory, e: Word, c: Word)
    requires PmdCopied(m0, m, m.Keys - m0.Keys, e, c)
    ensures PmdHeld(m0, m, e, c)
  {
    if PmdTable(e) {
      RepointedMoves(m0, m, e, c);
    }
  }

  lemma SourceTaken(v: Version, p: Page, i2: Index, i3: Index)
    ensures TakenFrom(v, p, i2, i3, Source(p, Stray(v, i2), i3, ENTRIES))
  {
    hide LastTable;
    assert forall e :: HoldsTable(e) <==> PmdTable(e);
  }

  lemma {:induction false} PudWords(v: Version, m0: Memory, m: Memory, e: Word, c: Word, i2: Index)
    requires PudCopied(m0, m, m.Keys - m0.Keys, e, c, Stray(v, i2))
    ensures PudHeld(v, m0, m, e, c, i2)
  {
    hide PmdCopied, PmdHeld, TakenFrom, Source, Repointed, Moved;
    if PudTable(e) {
      RepointedMoves(m0, m, e, c);
      var p := m0[Frame(e)];
      forall i3: Index ensures SlotHeld(v, m0, m, p, i2, i3, m[Frame(c)][i3]) {
        var j := Source(p, Stray(v, i2), i3, ENTRIES);
        SourceTaken(v, p, i2, i3);
        PmdWords(m0, m, p[j], m[Frame(c)][i3]);
      }
    }
  }

  /** Every entry of the copied half of the root, with all that it leads to. */
  lemma {:induction false} CopiedWords(v: Version, m0: Memory, m: Memory, root: Word, copy: Word, lo: nat, hi: nat)
    requires RangeCopied(v, m0, m, root, copy, lo, hi)
    ensures forall i1: Index :: lo <= i1 < hi ==> PgdHeld(v, m0, m, m0[root][i1], m[copy][i1])
  {
    hide PudCopied, PudHeld, Repointed, Moved;
    forall i1: Index | lo <= i1 < hi ensures PgdHeld(v, m0, m, m0[root][i1], m[copy][i1]) {
      var e, c := m0[root][i1], m[copy][i1];
      if !IsInvalid(e) {
        RepointedMoves(m0, m, e, c);
        forall i2: Index ensures PudHeld(v, m0, m, m0[Frame(e)][i2], m[Frame(c)][i2], i2) {
          PudWords(v, m0, m, m0[Frame(e)][i2], m[Frame(c)][i2], i2);
        }
      }
    }
  }
}
