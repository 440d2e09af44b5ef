/** What a deep copy means: which addresses it translates as the old tree does, what later
    stores can and cannot change, and how the two halves of an address space combine. */
module CopyTheorems {
  import opened PageWords
  import opened PageTables
  import opened CopyRelation
  import opened Wrappers

  // ----- Translation through the copy -----

  function PudSource(v: Version, m: Memory, e: Word, i2: Index, i3: Index): Index {
    if PudTable(e) && Frame(e) in m then Source(m[Frame(e)], Stray(v, i2), i3, ENTRIES) else i3
  }

  function PgdSource(v: Version, m: Memory, e: Word, i2: Index, i3: Index): Index {
    if !IsInvalid(e) && Frame(e) in m then PudSource(v, m, m[Frame(e)][i2], i2, i3) else i3
  }

  /** The address of the old tree that address a of the copy translates as. */
  function Redirect(v: Version, m: Memory, root: Word, a: Address): Address {
    a.(pmd := PgdSource(v, m, Entry(m, root, a.pgd), a.pud, a.pmd))
  }

  lemma PmdCopiedMeans(m0: Memory, m: Memory, n: set<Word>, e0: Word, e: Word)
    requires n <= m.Keys && PmdCopied(m0, m, n, e0, e)
    ensures PmdEntryIn(m, n, e)
    ensures forall i4: Index :: WalkPmd(m, e, i4) == WalkPmd(m0, e0, i4)
  {
  }

  lemma {:induction false} PudCopiedMeans(v: Version, m0: Memory, m: Memory, n: set<Word>, e0: Word, e: Word, i2: Index)
    requires n <= m.Keys && PudCopied(m0, m, n, e0, e, Stray(v, i2))
    ensures PudEntryIn(m, n, e)
    ensures forall i3: Index, i4: Index :: WalkPud(m, e, i3, i4) == WalkPud(m0, e0, PudSource(v, m0, e0, i2, i3), i4)
  {
    if PudTable(e0) {
      RetargetFlags(Frame(e), e0);
      RetargetPudKind(Frame(e), e0);
      forall i3: Index
        ensures PmdEntryIn(m, n, m[Frame(e)][i3])
        ensures forall i4: Index :: WalkPud(m, e, i3, i4) == WalkPud(m0, e0, PudSource(v, m0, e0, i2, i3), i4)
      {
        PmdCopiedMeans(m0, m, n, m0[Frame(e0)][Source(m0[Frame(e0)], Stray(v, i2), i3, ENTRIES)], m[Frame(e)][i3]);
      }
    }
  }

  lemma {:induction false} PgdCopiedMeans(v: Version, m0: Memory, m: Memory, n: set<Word>, e0: Word, e: Word)
    requires n <= m.Keys && PgdCopied(v, m0, m, n, e0, e)
    ensures PgdEntryIn(m, n, e)
    ensures forall i2: Index, i3: Index, i4: Index ::
      WalkPgd(m, e, i2, i3, i4) == WalkPgd(m0, e0, i2, PgdSource(v, m0, e0, i2, i3), i4)
  {
    if !IsInvalid(e0) {
      RetargetFlags(Frame(e), e0);
      forall i2: Index
        ensures PudEntryIn(m, n, m[Frame(e)][i2])
        ensures forall i3: Index, i4: Index ::
          WalkPgd(m, e, i2, i3, i4) == WalkPgd(m0, e0, i2, PgdSource(v, m0, e0, i2, i3), i4)
      {
        PudCopiedMeans(v, m0, m, n, m0[Frame(e0)][i2], m[Frame(e)][i2], i2);
      }
    }
  }

  /** Every copied address translates exactly as the address it is redirected to does in the
      old tree: same level, same leaf entry, same flags on the way, or the same fault. */
  lemma {:induction false} CopyTranslates(v: Version, m0: Memory, m: Memory, root: Word, copy: Word, lo: nat, hi: nat)
    requires RangeCopied(v, m0, m, root, copy, lo, hi)
    ensures TreeIn(m, m.Keys - m0.Keys, copy, lo, hi)
    ensures forall a: Address :: lo <= a.pgd < hi ==> Walk(m, copy, a) == Walk(m0, root, Redirect(v, m0, root, a))
  {
    forall i: Index | lo <= i < hi
      ensures PgdEntryIn(m, m.Keys - m0.Keys, m[copy][i])
      ensures forall i2: Index, i3: Index, i4: Index ::
        WalkPgd(m, m[copy][i], i2, i3, i4) == WalkPgd(m0, m0[root][i], i2, PgdSource(v, m0, m0[root][i], i2, i3), i4)
    {
      PgdCopiedMeans(v, m0, m, m.Keys - m0.Keys, m0[root][i], m[copy][i]);
    }
    forall a: Address | lo <= a.pgd < hi
      ensures Walk(m, copy, a) == Walk(m0, root, Redirect(v, m0, root, a))
    {
      assert Entry(m, copy, a.pgd) == m[copy][a.pgd];
      assert Entry(m0, root, a.pgd) == m0[root][a.pgd];
    }
  }

  /** With the corrected store every address translates as it does in the old tree, whatever that
      tree is. */
  lemma {:induction false} CorrectedTranslates(m0: Memory, m: Memory, root: Word, copy: Word, lo: nat, hi: nat)
    requires RangeCopied(Corrected, m0, m, root, copy, lo, hi)
    ensures forall a: Address :: lo <= a.pgd < hi ==> Walk(m, copy, a) == Walk(m0, root, a)
  {
    hide Walk, RangeCopied;
    CopyTranslates(Corrected, m0, m, root, copy, lo, hi);
    assert forall a: Address :: Redirect(Corrected, m0, root, a) == a;
  }

  // ----- Exactly when the copy is faithful -----

  /** Two tables of PTEs translate alike: the same slots are live, and live slots have the
      same PTE below the same flags. */
  predicate SameTables(m: Memory, e: Word, e': Word) {
    PmdTable(e) && PmdTable(e') &&
    forall i4: Index ::
      var x, x' := Entry(m, Frame(e), i4), Entry(m, Frame(e'), i4);
      (IsInvalid(x) && IsInvalid(x')) || (!IsInvalid(x) && x == x' && Flags(e) == Flags(e'))
  }

  /** No table after slot i2 of the page, or the last such table is what slot i2 has anyway. */
  predicate HarmlessSlot(m: Memory, p: Page, i2: Index) {
    var j := LastTable(p, i2, ENTRIES);
    j == i2 || SameTables(m, p[i2], p[j])
  }

  /** Every PMD page reached through slots lo..hi is harmless at the index of its PUD slot. */
  predicate HarmlessTree(m: Memory, root: Word, lo: nat, hi: nat)
    requires root in m
  {
    forall i1: Index, i2: Index :: lo <= i1 < hi ==> HarmlessPath(m, m[root][i1], i2)
  }

  predicate HarmlessPath(m: Memory, e: Word, i2: Index) {
    !IsInvalid(e) && PudTable(Entry(m, Frame(e), i2)) && Frame(Entry(m, Frame(e), i2)) in m ==>
      HarmlessSlot(m, m[Frame(Entry(m, Frame(e), i2))], i2)
  }

  lemma {:induction false} SameTablesMeans(m: Memory, e: Word, e': Word)
    requires PmdTable(e')
    ensures SameTables(m, e, e') <==> forall i4: Index :: WalkPmd(m, e, i4) == WalkPmd(m, e', i4)
  {
    if forall i4: Index :: WalkPmd(m, e, i4) == WalkPmd(m, e', i4) {
      assert WalkPmd(m, e, 0) == WalkPmd(m, e', 0);
      forall i4: Index
        ensures var x, x' := Entry(m, Frame(e), i4), Entry(m, Frame(e'), i4);
          (IsInvalid(x) && IsInvalid(x')) || (!IsInvalid(x) && x == x' && Flags(e) == Flags(e'))
      {
        assert WalkPmd(m, e, i4) == WalkPmd(m, e', i4);
        if !IsInvalid(Entry(m, Frame(e), i4)) {
          assert WalkPmd(m, e, i4).rights[0] == Flags(e);
          assert WalkPmd(m, e', i4).rights[0] == Flags(e');
        }
      }
    }
  }

  /** Looking through tables passed on the way hides nothing. */
  lemma {:induction false} ThroughInjective(e: Word, t: Translation, t': Translation)
    ensures Through(e, t) == Through(e, t') <==> t == t'
  {
    if t.Mapped? && t'.Mapped? && Through(e, t) == Through(e, t') {
      assert ([Flags(e)] + t.rights)[1..] == t.rights;
      assert ([Flags(e)] + t'.rights)[1..] == t'.rights;
    }
  }

  lemma {:induction false} HarmlessPathMeans(m: Memory, s: set<Word>, e: Word, i2: Index)
    requires PgdEntryIn(m, s, e)
    ensures HarmlessPath(m, e, i2) <==>
      forall i3: Index, i4: Index ::
          WalkPgd(m, e, i2, PgdSource(Shipped, m, e, i2, i3), i4) == WalkPgd(m, e, i2, i3, i4)
  {
    if !IsInvalid(e) && PudTable(m[Frame(e)][i2]) {
      var e2 := m[Frame(e)][i2];
      assert PudEntryIn(m, s, e2);
      var p := m[Frame(e2)];
      var j := LastTable(p, i2, ENTRIES);
      forall i4: Index
        ensures WalkPgd(m, e, i2, PgdSource(Shipped, m, e, i2, i2), i4) == WalkPgd(m, e, i2, i2, i4)
                <==> WalkPmd(m, p[j], i4) == WalkPmd(m, p[i2], i4)
      {
        ThroughInjective(e2, WalkPmd(m, p[j], i4), WalkPmd(m, p[i2], i4));
        ThroughInjective(e, WalkPud(m, e2, j, i4), WalkPud(m, e2, i2, i4));
      }
      if j != i2 {
        SameTablesMeans(m, p[i2], p[j]);
      }
    }
  }

  /** The same for a whole range of the old tree, in terms of the addresses the copy uses. */
  lemma {:induction false} HarmlessTreeMeans(m: Memory, s: set<Word>, root: Word, lo: nat, hi: nat)
    requires TreeIn(m, s, root, lo, hi)
    ensures HarmlessTree(m, root, lo, hi) <==>
      forall a: Address :: lo <= a.pgd < hi ==> Walk(m, root, Redirect(Shipped, m, root, a)) == Walk(m, root, a)
  {
    if HarmlessTree(m, root, lo, hi) {
      forall a: Address | lo <= a.pgd < hi ensures Walk(m, root, Redirect(Shipped, m, root, a)) == Walk(m, root, a) {
        assert HarmlessPath(m, m[root][a.pgd], a.pud);
        HarmlessPathMeans(m, s, m[root][a.pgd], a.pud);
      }
    }
    if forall a: Address :: lo <= a.pgd < hi ==> Walk(m, root, Redirect(Shipped, m, root, a)) == Walk(m, root, a) {
      forall i1: Index, i2: Index | lo <= i1 < hi ensures HarmlessPath(m, m[root][i1], i2) {
        var e := m[root][i1];
        forall i3: Index, i4: Index
          ensures WalkPgd(m, e, i2, PgdSource(Shipped, m, e, i2, i3), i4) == WalkPgd(m, e, i2, i3, i4)
        {
          var a := Address(i1, i2, i3, i4);
          assert Walk(m, root, Redirect(Shipped, m, root, a)) == Walk(m, root, a);
        }
        HarmlessPathMeans(m, s, e, i2);
      }
    }
  }

  /** The copy translates every address of slots lo..hi as the old tree does if and only if no
      PMD page that is reached has, after the slot with the index of its PUD slot, a table
      different from the one in that slot. */
  lemma {:induction false} FaithfulExactly(m0: Memory, m: Memory, s: set<Word>, root: Word, copy: Word, lo: nat,
      hi: nat)
    requires TreeIn(m0, s, root, lo, hi) && RangeCopied(Shipped, m0, m, root, copy, lo, hi)
    ensures HarmlessTree(m0, root, lo, hi) <==>
      forall a: Address :: lo <= a.pgd < hi ==> Walk(m, copy, a) == Walk(m0, root, a)
  {
    hide *;
    CopyTranslates(Shipped, m0, m, root, copy, lo, hi);
    HarmlessTreeMeans(m0, s, root, lo, hi);
  }

  // ----- A concrete tree that the copy does not translate faithfully -----

  /** One table at every level; the only mapping is through slot 1 of the PMD page. */
  function StraySample(): Memory {
    map[
      Word(0x1000) := ZeroPage()[256 := Word(0x2003)],
      Word(0x2000) := ZeroPage()[0 := Word(0x3003)],
      Word(0x3000) := ZeroPage()[1 := Word(0x4003)],
      Word(0x4000) := ZeroPage()[0 := Word(0x5003)]]
  }

  lemma StraySampleShape(m: Memory)
    requires forall f :: f in StraySample() ==> f in m && m[f] == StraySample()[f]
    ensures m[Word(0x1000)][256] == Word(0x2003) && Frame(Word(0x2003)) == Word(0x2000)
    ensures m[Word(0x2000)][0] == Word(0x3003) && PudTable(Word(0x3003)) && Frame(Word(0x3003)) == Word(0x3000)
    ensures m[Word(0x3000)][0] == ZERO && IsInvalid(ZERO)
    ensures m[Word(0x3000)][1] == Word(0x4003) && PmdTable(Word(0x4003)) && Frame(Word(0x4003)) == Word(0x4000)
    ensures m[Word(0x4000)][0] == Word(0x5003) && !IsInvalid(Word(0x5003))
    ensures LastTable(m[Word(0x3000)], 0, ENTRIES) == 1
  {
  }

  /** Address (256, 0, 0, 0) faults in the sample but is mapped in every copy of it. */
  lemma {:induction false} StraySampleDiffers(m: Memory, copy: Word)
    requires copy !in StraySample()
    requires RangeCopied(Shipped, StraySample()[copy := ZeroPage()], m, Word(0x1000), copy, ENTRIES / 2, ENTRIES)
    ensures Walk(StraySample(), Word(0x1000), Address(256, 0, 0, 0)) == Fault(2)
    ensures Walk(m, copy, Address(256, 0, 0, 0)).Mapped?
  {
    var m0 := StraySample()[copy := ZeroPage()];
    StraySampleShape(StraySample());
    StraySampleShape(m0);
    CopyTranslates(Shipped, m0, m, Word(0x1000), copy, ENTRIES / 2, ENTRIES);
  }

  // ----- Later stores -----

  datatype Store = Store(page: Word, index: Index, value: Word)

  /** Memory after a sequence of stores; a store to a page that is not in use has no effect. */
  function AfterStores(m: Memory, ws: seq<Store>): Memory {
    if ws == [] then m
    else
      var w := ws[0];
      AfterStores(if w.page in m then m[w.page := m[w.page][w.index := w.value]] else m, ws[1..])
  }

  lemma {:induction false} StoresKeep(m: Memory, ws: seq<Store>, s: set<Word>)
    requires forall i :: 0 <= i < |ws| ==> ws[i].page !in s
    ensures AfterStores(m, ws).Keys == m.Keys && Kept(m, AfterStores(m, ws), s)
  {
    if ws != [] {
      var w := ws[0];
      var m' := if w.page in m then m[w.page := m[w.page][w.index := w.value]] else m;
      assert forall i :: 0 <= i < |ws[1..]| ==> ws[1..][i] == ws[i + 1];
      StoresKeep(m', ws[1..], s);
      assert m'.Keys == m.Keys;
    }
  }

  /** The deep copy is a snapshot: whatever is stored in the pages of the old tree afterwards,
      the copy still translates as the old tree did when it was copied. */
  lemma {:induction false} SnapshotHolds(v: Version, m0: Memory, m: Memory, root: Word, copy: Word, lo: nat,
      hi: nat, ws: seq<Store>, a: Address)
    requires RangeCopied(v, m0, m, root, copy, lo, hi) && lo <= a.pgd < hi
    requires forall i :: 0 <= i < |ws| ==> ws[i].page in m0 && ws[i].page != copy
    ensures Walk(AfterStores(m, ws), copy, a) == Walk(m0, root, Redirect(v, m0, root, a))
  {
    var n := m.Keys - m0.Keys;
    StoresKeep(m, ws, n + {copy});
    CopyTranslates(v, m0, m, root, copy, lo, hi);
    PgdEntryKept(m, AfterStores(m, ws), n, m[copy][a.pgd]);
  }

  /** The shallow refresh is a live view: whatever is stored below the two root pages
      afterwards, the upper halves of both trees translate alike. */
  lemma {:induction false} LiveViewHolds(m: Memory, root: Word, copy: Word, ws: seq<Store>, a: Address)
    requires root in m && copy in m && a.pgd >= ENTRIES / 2
    requires forall j: Index :: j >= ENTRIES / 2 ==> m[copy][j] == m[root][j]
    requires forall i :: 0 <= i < |ws| ==> ws[i].page != root && ws[i].page != copy
    ensures Walk(AfterStores(m, ws), copy, a) == Walk(AfterStores(m, ws), root, a)
  {
    StoresKeep(m, ws, {root, copy});
  }

  // ----- The two halves -----

  /** Filling one range of a root leaves every address outside it as it was, as long as the
      tables of those addresses do not include the root itself. */
  lemma {:induction false} OtherHalfUndisturbed(v: Version, m: Memory, m': Memory, t: set<Word>, root: Word,
      copy: Word, lo: nat, hi: nat, a: Address)
    requires RangeCopied(v, m, m', root, copy, lo, hi)
    requires !(lo <= a.pgd < hi) && copy !in t && PgdEntryIn(m, t, m[copy][a.pgd])
    ensures Walk(m', copy, a) == Walk(m, copy, a)
  {
    PgdEntryKept(m, m', t, m[copy][a.pgd]);
  }

  /** Copying the upper half and then the lower half gives a root that translates all of the
      48-bit address space as the old tree did before either copy. */
  lemma {:induction false} HalvesCompose(v: Version, m0: Memory, m1: Memory, m2: Memory, s: set<Word>, root: Word,
      copy: Word, a: Address)
    requires TreeIn(m0, s, root, 0, ENTRIES) && copy !in s && copy != root && s <= m0.Keys
    requires RangeCopied(v, m0, m1, root, copy, ENTRIES / 2, ENTRIES)
    requires RangeCopied(v, m1, m2, root, copy, 0, ENTRIES / 2)
    ensures Walk(m2, copy, a) == Walk(m0, root, Redirect(v, m0, root, a))
  {
    CopyTranslates(v, m0, m1, root, copy, ENTRIES / 2, ENTRIES);
    CopyTranslates(v, m1, m2, root, copy, 0, ENTRIES / 2);
    if a.pgd >= ENTRIES / 2 {
      OtherHalfUndisturbed(v, m1, m2, m1.Keys - m0.Keys, root, copy, 0, ENTRIES / 2, a);
    } else {
      var e := m0[root][a.pgd];
      assert m1[root] == m0[root];
      PgdEntryKept(m0, m1, s, e);
      SourceKept(v, m0, m1, s, e, a.pud, a.pmd);
    }
  }

  lemma SourceKept(v: Version, m: Memory, m': Memory, s: set<Word>, e: Word, i2: Index, i3: Index)
    requires PgdEntryIn(m, s, e) && Kept(m, m', s)
    ensures PgdSource(v, m', e, i2, i3) == PgdSource(v, m, e, i2, i3)
  {
  }
}
