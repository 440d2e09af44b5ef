/** The tables of a deep copy are used once each: no two slots of it lead to the same table, the slot that
    the shipped code stores later tables in aside. */
module CopyTidy {
  import opened PageWords
  import opened PageTables
  import opened CopyRelation
  import opened CopyTheorems
  import opened Wrappers

  // ----- The tables below an entry -----

  function PudTables(m: Memory, e: Word): set<Word> {
    if PudTable(e) && Frame(e) in m then
      {Frame(e)} + set j: Index | PmdTable(m[Frame(e)][j]) :: Frame(m[Frame(e)][j])
    else {}
  }

  function PgdTables(m: Memory, e: Word): set<Word> {
    if !IsInvalid(e) && Frame(e) in m then
      {Frame(e)} + set j: Index, g | g in PudTables(m, m[Frame(e)][j]) :: g
    else {}
  }

  // ----- No table twice -----

  /** Among the first n slots of a PMD page, but for slot x, no two lead to the same table. */
  predicate PmdApart(p: Page, x: Option<Index>, n: nat) {
    forall j: Index, l: Index ::
      j < l < n && x != Some(j) && x != Some(l) && PmdTable(p[j]) && PmdTable(p[l]) ==> Frame(p[j]) != Frame(p[l])
  }

  /** No table below the entry twice. */
  predicate PudEntryApart(m: Memory, e: Word, x: Option<Index>) {
    PudTable(e) ==>
      && Frame(e) in m && PmdApart(m[Frame(e)], x, ENTRIES)
      && forall j: Index :: PmdTable(m[Frame(e)][j]) ==> Frame(m[Frame(e)][j]) != Frame(e)
  }

  predicate PudApart(v: Version, m: Memory, p: Page, n: nat) {
    && (forall j: Index :: j < n ==> PudEntryApart(m, p[j], Stray(v, j)))
    && (forall j: Index, l: Index :: j < l < n ==> PudTables(m, p[j]) !! PudTables(m, p[l]))
  }

  predicate PgdEntryApart(v: Version, m: Memory, e: Word) {
    !IsInvalid(e) ==>
      && Frame(e) in m && PudApart(v, m, m[Frame(e)], ENTRIES)
      && forall j: Index :: Frame(e) !in PudTables(m, m[Frame(e)][j])
  }

  predicate PgdApart(v: Version, m: Memory, p: Page, lo: nat, n: nat) {
    && (forall j: Index :: lo <= j < n ==> PgdEntryApart(v, m, p[j]))
    && (forall j: Index, l: Index :: lo <= j < l < n ==> PgdTables(m, p[j]) !! PgdTables(m, p[l]))
  }

  lemma NoSlots(p: Page, x: Option<Index>)
    ensures PmdApart(p, x, 0)
  {
  }

  lemma NoPudSlots(v: Version, m: Memory, p: Page)
    ensures PudApart(v, m, p, 0)
  {
  }

  lemma NoPgdSlots(v: Version, m: Memory, p: Page, lo: nat)
    ensures PgdApart(v, m, p, lo, lo)
  {
  }

  // ----- What later steps keep -----

  lemma {:induction false} PudTablesKept(m: Memory, m': Memory, s: set<Word>, e: Word, x: Option<Index>)
    requires PudEntryIn(m, s, e) && Kept(m, m', s)
    ensures PudTables(m', e) == PudTables(m, e) <= s
    ensures PudEntryApart(m, e, x) ==> PudEntryApart(m', e, x)
  {
  }

  lemma {:induction false} PudApartKept(v: Version, m: Memory, m': Memory, s: set<Word>, p: Page)
    requires (forall j: Index :: PudEntryIn(m, s, p[j])) && Kept(m, m', s)
    ensures forall j: Index :: PudTables(m', p[j]) == PudTables(m, p[j]) <= s
    ensures PudApart(v, m, p, ENTRIES) ==> PudApart(v, m', p, ENTRIES)
  {
    hide PudTables, PudEntryApart, PudEntryIn;
    forall j: Index
      ensures PudTables(m', p[j]) == PudTables(m, p[j]) <= s
      ensures PudEntryApart(m, p[j], Stray(v, j)) ==> PudEntryApart(m', p[j], Stray(v, j))
    {
      PudTablesKept(m, m', s, p[j], Stray(v, j));
    }
  }

  lemma {:induction false} PgdTablesKept(v: Version, m: Memory, m': Memory, s: set<Word>, e: Word)
    requires PgdEntryIn(m, s, e) && Kept(m, m', s)
    ensures PgdTables(m', e) == PgdTables(m, e) <= s
    ensures PgdEntryApart(v, m, e) ==> PgdEntryApart(v, m', e)
  {
    hide PudTables, PudApart, PudEntryIn;
    if !IsInvalid(e) {
      PudApartKept(v, m, m', s, m[Frame(e)]);
    }
  }

  // ----- One slot more -----

  lemma {:induction false} PmdApartStep(m0: Memory, m: Memory, m': Memory, p0: Page, pmdNew: Word, x: Option<Index>,
      i3: Index)
    requires pmdNew in m && pmdNew in m' && m0.Keys <= m.Keys <= m'.Keys
    requires m'[pmdNew] == if PmdTable(p0[i3]) then m[pmdNew][i3 := m'[pmdNew][i3]][StoreSlot(x, i3) := m'[pmdNew][i3]]
                           else m[pmdNew][i3 := m'[pmdNew][i3]]
    requires PmdCopied(m, m', m'.Keys - m.Keys, p0[i3], m'[pmdNew][i3])
    requires forall j: Index :: j < i3 ==>
      PmdCopied(m0, m, m.Keys - m0.Keys, p0[Source(p0, x, j, i3)], m[pmdNew][j])
    requires PmdApart(m[pmdNew], x, i3)
    ensures PmdApart(m'[pmdNew], x, i3 + 1)
  {
    hide PmdCopied, Frame, IsInvalid, PmdLarge, Source;
    NewTable(m, m', p0[i3], m'[pmdNew][i3]);
    forall j: Index | j < i3 ensures PmdTable(m[pmdNew][j]) ==> Frame(m[pmdNew][j]) in m {
      NewTable(m0, m, p0[Source(p0, x, j, i3)], m[pmdNew][j]);
    }
  }

  /** A table in a copied slot is a new one. */
  lemma NewTable(m0: Memory, m: Memory, e0: Word, e: Word)
    requires PmdCopied(m0, m, m.Keys - m0.Keys, e0, e)
    ensures PmdTable(e) ==> Frame(e) in m && Frame(e) !in m0
  {
  }

  /** An entry that leads to a page just filled. */
  lemma {:induction false} PudEntryFilled(m0: Memory, m: Memory, e: Word, a: Word, f0: Word, x: Option<Index>)
    requires a in m0 && IsFrame(a) && PmdPageCopied(m0, m, m.Keys - m0.Keys, f0, a, x) && PmdApart(m[a], x, ENTRIES)
    ensures PudEntryApart(m, Retarget(a, e), x)
  {
    hide PmdCopied, Retarget, IsInvalid, PmdLarge, PudLarge, PmdApart, Source;
    RetargetFrame(a, e);
    forall j: Index ensures PmdTable(m[a][j]) ==> Frame(m[a][j]) != a {
      NewTable(m0, m, m0[f0][Source(m0[f0], x, j, ENTRIES)], m[a][j]);
    }
  }

  lemma {:induction false} PudApartStep(v: Version, m0: Memory, m: Memory, m': Memory, p0: Page, pudNew: Word,
      i2: Index)
    requires pudNew in m0 && m0.Keys <= m.Keys <= m'.Keys && Kept(m, m', m.Keys - {pudNew})
    requires m'[pudNew] == m[pudNew][i2 := m'[pudNew][i2]]
    requires PudCopied(m, m', m'.Keys - m.Keys, p0[i2], m'[pudNew][i2], Stray(v, i2))
    requires PudEntryApart(m', m'[pudNew][i2], Stray(v, i2))
    requires forall j: Index :: j < i2 ==> PudCopied(m0, m, m.Keys - m0.Keys, p0[j], m[pudNew][j], Stray(v, j))
    requires PudApart(v, m, m[pudNew], i2)
    ensures PudApart(v, m', m'[pudNew], i2 + 1)
  {
    hide PudCopied, PudTables, PudEntryApart, PudEntryIn, Stray;
    var n, s := m'.Keys - m.Keys, m.Keys - m0.Keys;
    PudCopiedMeans(v, m, m', n, p0[i2], m'[pudNew][i2], i2);
    PudTablesKept(m', m', n, m'[pudNew][i2], Stray(v, i2));
    forall j: Index | j < i2
      ensures PudTables(m', m[pudNew][j]) == PudTables(m, m[pudNew][j]) <= s
      ensures PudEntryApart(m', m[pudNew][j], Stray(v, j))
    {
      PudCopiedMeans(v, m0, m, s, p0[j], m[pudNew][j], j);
      PudTablesKept(m, m', s, m[pudNew][j], Stray(v, j));
    }
  }

  lemma {:induction false} PgdEntryFilled(v: Version, m0: Memory, m: Memory, e: Word, a: Word, f0: Word)
    requires a in m0 && IsFrame(a) && PudPageCopied(v, m0, m, m.Keys - m0.Keys, f0, a) && PudApart(v, m, m[a], ENTRIES)
    ensures PgdEntryApart(v, m, Retarget(a, e))
  {
    hide PudCopied, Retarget, IsInvalid, PudApart, PudTables, PudEntryIn, PudEntryApart;
    RetargetFrame(a, e);
    forall j: Index ensures a !in PudTables(m, m[a][j]) {
      PudCopiedMeans(v, m0, m, m.Keys - m0.Keys, m0[f0][j], m[a][j], j);
      PudTablesKept(m, m, m.Keys - m0.Keys, m[a][j], Stray(v, j));
    }
  }

  lemma {:induction false} PgdApartStep(v: Version, m0: Memory, m: Memory, m': Memory, p0: Page, copy: Word, lo: nat,
      i1: Index)
    requires copy in m0 && m0.Keys <= m.Keys <= m'.Keys && Kept(m, m', m.Keys - {copy}) && lo <= i1
    requires m'[copy] == m[copy][i1 := m'[copy][i1]]
    requires PgdCopied(v, m, m', m'.Keys - m.Keys, p0[i1], m'[copy][i1]) && PgdEntryApart(v, m', m'[copy][i1])
    requires forall j: Index :: lo <= j < i1 ==> PgdCopied(v, m0, m, m.Keys - m0.Keys, p0[j], m[copy][j])
    requires PgdApart(v, m, m[copy], lo, i1)
    ensures PgdApart(v, m', m'[copy], lo, i1 + 1)
  {
    hide PgdCopied, PgdTables, PgdEntryApart, PgdEntryIn;
    var n, s := m'.Keys - m.Keys, m.Keys - m0.Keys;
    PgdCopiedMeans(v, m, m', n, p0[i1], m'[copy][i1]);
    PgdTablesKept(v, m', m', n, m'[copy][i1]);
    forall j: Index | lo <= j < i1
      ensures PgdTables(m', m[copy][j]) == PgdTables(m, m[copy][j]) <= s
      ensures PgdEntryApart(v, m', m[copy][j])
    {
      PgdCopiedMeans(v, m0, m, s, p0[j], m[copy][j]);
      PgdTablesKept(v, m, m', s, m[copy][j]);
    }
  }

  // ----- What it means -----

  function PudOf(m: Memory, root: Word, a: Address): Word {
    Entry(m, Frame(Entry(m, root, a.pgd)), a.pud)
  }

  function PmdOf(m: Memory, root: Word, a: Address): Word {
    Entry(m, Frame(PudOf(m, root, a)), a.pmd)
  }

  /** The way to an address leads over a table of this level: 3 for a page of PUD entries, 2 for a page of
      PMD entries and 1 for a page of PTEs. */
  predicate Uses(m: Memory, root: Word, a: Address, level: nat) {
    && !IsInvalid(Entry(m, root, a.pgd))
    && (level <= 2 ==> PudTable(PudOf(m, root, a)))
    && (level <= 1 ==> PmdTable(PmdOf(m, root, a)))
  }

  function TableOf(m: Memory, root: Word, a: Address, level: nat): Word {
    if level >= 3 then Frame(Entry(m, root, a.pgd))
    else if level == 2 then Frame(PudOf(m, root, a))
    else Frame(PmdOf(m, root, a))
  }

  /** The slots on the way to this table are the same for both addresses. */
  predicate SameSlots(a: Address, b: Address, level: nat) {
    a.pgd == b.pgd && (level <= 2 ==> a.pud == b.pud) && (level <= 1 ==> a.pmd == b.pmd)
  }

  lemma {:induction false} TableBelow(m: Memory, root: Word, a: Address, level: nat)
    requires root in m && 1 <= level <= 3 && Uses(m, root, a, level)
    requires Frame(Entry(m, root, a.pgd)) in m && (level <= 2 ==> Frame(PudOf(m, root, a)) in m)
    ensures TableOf(m, root, a, level) in PgdTables(m, Entry(m, root, a.pgd))
    ensures level <= 2 ==> TableOf(m, root, a, level) in PudTables(m, PudOf(m, root, a))
  {
    hide IsInvalid, PudLarge, PmdLarge, Frame;
    var e1, e2 := Entry(m, root, a.pgd), PudOf(m, root, a);
    if level <= 2 {
      assert m[Frame(e1)][a.pud] == e2;
      if level == 1 {
        assert m[Frame(e2)][a.pmd] == PmdOf(m, root, a);
      }
      assert TableOf(m, root, a, level) in PudTables(m, m[Frame(e1)][a.pud]);
    }
  }

  /** In a deep copy the ways to two addresses lead over the same table only as the same level and through
      the same slots; the slots of PTE pages that the shipped code stores later tables in are excepted. */
  lemma {:induction false} TablesOnce(v: Version, m: Memory, copy: Word, lo: nat, hi: nat, a: Address, l: nat,
      b: Address, k: nat)
    requires copy in m && PgdApart(v, m, m[copy], lo, hi) && lo <= a.pgd < hi && lo <= b.pgd < hi
    requires 1 <= k <= l <= 3 && Uses(m, copy, a, l) && Uses(m, copy, b, k)
    requires l == k == 1 && v == Shipped ==> a.pmd != a.pud && b.pmd != b.pud
    ensures TableOf(m, copy, a, l) == TableOf(m, copy, b, k) ==> l == k && SameSlots(a, b, l)
  {
    hide IsInvalid, PudLarge, PmdLarge, Frame, PgdTables, PudTables;
    PathIn(v, m, copy, lo, hi, a, l);
    PathIn(v, m, copy, lo, hi, b, k);
    TableBelow(m, copy, a, l);
    TableBelow(m, copy, b, k);
  }

  lemma {:induction false} PathIn(v: Version, m: Memory, copy: Word, lo: nat, hi: nat, a: Address, level: nat)
    requires copy in m && PgdApart(v, m, m[copy], lo, hi) && lo <= a.pgd < hi
    requires 1 <= level <= 3 && Uses(m, copy, a, level)
    ensures Frame(Entry(m, copy, a.pgd)) in m && (level <= 2 ==> Frame(PudOf(m, copy, a)) in m)
  {
    hide IsInvalid, PudLarge, PmdLarge, Frame, PgdTables, PudTables, PmdApart;
    assert PgdEntryApart(v, m, m[copy][a.pgd]);
    if level <= 2 {
      assert PudEntryApart(m, m[Frame(m[copy][a.pgd])][a.pud], Stray(v, a.pud));
    }
  }
}
