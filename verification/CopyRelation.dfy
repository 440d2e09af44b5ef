/** What a deep copy of a paging tree is, slot by slot, and how many pages it takes. */
module CopyRelation {
  import opened PageWords
  import opened PageTables
  import opened Wrappers

  /** The store of a copied table at copy_pg.h:211 has the index of the PUD slot; the corrected loop
      has that of the PMD slot itself. */
  datatype Version = Shipped | Corrected

  /** The one slot of a PMD page, reached through slot i2, in which later tables are stored too. */
  function Stray(v: Version, i2: Index): Option<Index> {
    if v == Shipped then Some(i2) else None
  }

  /** The slot in which a table copied for slot i3 is stored last. */
  function StoreSlot(x: Option<Index>, i3: Index): Index {
    if x.Some? then x.value else i3
  }

  // ----- Which old slot a copied slot shows -----

  /** The last slot in (i, n) of a PMD page that holds a table, or i if there is none. */
  function LastTable(p: Page, i: Index, n: nat): (j: Index)
    requires n <= ENTRIES
    ensures j == i || (i < j < n && PmdTable(p[j]))
    ensures forall k :: j < k < n && i < k ==> !PmdTable(p[k])
  {
    if n <= i + 1 then i
    else if PmdTable(p[n - 1]) then n - 1
    else LastTable(p, i, n - 1)
  }

  /** The slot of the old PMD page that slot j of the copy shows once n slots are done.
      Every slot shows itself, except the stray one: each later table is also stored there. */
  function Source(p: Page, x: Option<Index>, j: Index, n: nat): Index
    requires n <= ENTRIES
  {
    if x == Some(j) then LastTable(p, j, n) else j
  }

  // ----- The copy of one entry -----

  // Entry e in memory m, with its tables among the pages n, is the copy of e0 in memory m0.

  ghost predicate PmdCopied(m0: Memory, m: Memory, n: set<Word>, e0: Word, e: Word) {
    if IsInvalid(e0) then e == ZERO
    else if PmdLarge(e0) then e == e0
    else Repointed(n, e0, e) && SamePage(m0, m, Frame(e0), Frame(e))
  }

  /** Entry e is e0 made to point at one of the pages n. */
  ghost predicate Repointed(n: set<Word>, e0: Word, e: Word) {
    IsFrame(Frame(e)) && Frame(e) in n && e == Retarget(Frame(e), e0)
  }

  ghost predicate SamePage(m0: Memory, m: Memory, f0: Word, f: Word) {
    f0 in m0 && f in m && m[f] == m0[f0]
  }

  ghost predicate PmdPageCopied(m0: Memory, m: Memory, n: set<Word>, f0: Word, f: Word, x: Option<Index>) {
    f0 in m0 && f in m &&
    forall j: Index :: PmdCopied(m0, m, n, m0[f0][Source(m0[f0], x, j, ENTRIES)], m[f][j])
  }

  ghost predicate PudCopied(m0: Memory, m: Memory, n: set<Word>, e0: Word, e: Word, x: Option<Index>) {
    if !PudTable(e0) then e == e0
    else Repointed(n, e0, e) && PmdPageCopied(m0, m, n, Frame(e0), Frame(e), x)
  }

  ghost predicate PudPageCopied(v: Version, m0: Memory, m: Memory, n: set<Word>, f0: Word, f: Word) {
    f0 in m0 && f in m && forall j: Index :: PudCopied(m0, m, n, m0[f0][j], m[f][j], Stray(v, j))
  }

  ghost predicate PgdCopied(v: Version, m0: Memory, m: Memory, n: set<Word>, e0: Word, e: Word) {
    if IsInvalid(e0) then e == e0
    else Repointed(n, e0, e) && PudPageCopied(v, m0, m, n, Frame(e0), Frame(e))
  }

  /** Slots lo..hi of page copy are copies of those of page root; the rest of that page and
      every other page of m0 are as they were. */
  ghost predicate RangeCopied(v: Version, m0: Memory, m: Memory, root: Word, copy: Word, lo: nat, hi: nat) {
    && root in m0 && copy in m0 && m0.Keys <= m.Keys && Kept(m0, m, m0.Keys - {copy})
    && (forall j: Index :: lo <= j < hi ==> PgdCopied(v, m0, m, m.Keys - m0.Keys, m0[root][j], m[copy][j]))
    && (forall j: Index :: !(lo <= j < hi) ==> m[copy][j] == m0[copy][j])
  }

  // A copy remains one when the old side is read in an earlier memory m0 in which the old tree
  // was the same, and the new side in a later memory m' in which the new tables are the same.

  lemma PmdCopiedCarries(m0: Memory, m1: Memory, m: Memory, m': Memory, s: set<Word>,
                         n: set<Word>, n': set<Word>, e0: Word, e: Word)
    requires PmdEntryIn(m0, s, e0) && Kept(m0, m1, s)
    requires Kept(m, m', n) && n <= n'
    requires PmdCopied(m1, m, n, e0, e)
    ensures PmdCopied(m0, m', n', e0, e)
  {
  }

  lemma {:induction false} PudCopiedCarries(m0: Memory, m1: Memory, m: Memory, m': Memory, s: set<Word>,
                         n: set<Word>, n': set<Word>, e0: Word, e: Word, x: Option<Index>)
    requires PudEntryIn(m0, s, e0) && Kept(m0, m1, s)
    requires Kept(m, m', n) && n <= n'
    requires PudCopied(m1, m, n, e0, e, x)
    ensures PudCopied(m0, m', n', e0, e, x)
  {
    if PudTable(e0) {
      var a := Frame(e);
      var p := m0[Frame(e0)];
      forall j: Index ensures PmdCopied(m0, m', n', p[Source(p, x, j, ENTRIES)], m'[a][j]) {
        PmdCopiedCarries(m0, m1, m, m', s, n, n', p[Source(p, x, j, ENTRIES)], m[a][j]);
      }
      assert PmdPageCopied(m0, m', n', Frame(e0), a, x);
    }
  }

  lemma {:induction false} PgdCopiedCarries(v: Version, m0: Memory, m1: Memory, m: Memory, m': Memory, s: set<Word>,
                         n: set<Word>, n': set<Word>, e0: Word, e: Word)
    requires PgdEntryIn(m0, s, e0) && Kept(m0, m1, s)
    requires Kept(m, m', n) && n <= n'
    requires PgdCopied(v, m1, m, n, e0, e)
    ensures PgdCopied(v, m0, m', n', e0, e)
  {
    if !IsInvalid(e0) {
      var a := Frame(e);
      forall j: Index ensures PudCopied(m0, m', n', m0[Frame(e0)][j], m'[a][j], Stray(v, j)) {
        PudCopiedCarries(m0, m1, m, m', s, n, n', m0[Frame(e0)][j], m[a][j], Stray(v, j));
      }
      assert PudPageCopied(v, m0, m', n', Frame(e0), a);
    }
  }

  // ----- How many pages the copy takes: one for each path to a table -----

  function PmdSlotNeed(e: Word): nat {
    if PmdTable(e) then 1 else 0
  }

  function PmdNeed(p: Page, n: nat): nat
    requires n <= ENTRIES
  {
    if n == 0 then 0 else PmdNeed(p, n - 1) + PmdSlotNeed(p[n - 1])
  }

  function PudSlotNeed(m: Memory, e: Word): nat {
    if PudTable(e) && Frame(e) in m then 1 + PmdNeed(m[Frame(e)], ENTRIES) else 0
  }

  function PudNeed(m: Memory, p: Page, n: nat): nat
    requires n <= ENTRIES
  {
    if n == 0 then 0 else PudNeed(m, p, n - 1) + PudSlotNeed(m, p[n - 1])
  }

  function PgdSlotNeed(m: Memory, e: Word): nat {
    if !IsInvalid(e) && Frame(e) in m then 1 + PudNeed(m, m[Frame(e)], ENTRIES) else 0
  }

  /** The pages needed below slots lo..n of a PGD page. */
  function PgdNeed(m: Memory, p: Page, lo: nat, n: nat): nat
    requires lo <= n <= ENTRIES
  {
    if n == lo then 0 else PgdNeed(m, p, lo, n - 1) + PgdSlotNeed(m, p[n - 1])
  }

  lemma PmdNeedGrows(p: Page, n: nat, n': nat)
    requires n <= n' <= ENTRIES
    ensures PmdNeed(p, n) <= PmdNeed(p, n')
  {
  }

  lemma PudNeedGrows(m: Memory, p: Page, n: nat, n': nat)
    requires n <= n' <= ENTRIES
    ensures PudNeed(m, p, n) <= PudNeed(m, p, n')
  {
  }

  lemma PgdNeedGrows(m: Memory, p: Page, lo: nat, n: nat, n': nat)
    requires lo <= n <= n' <= ENTRIES
    ensures PgdNeed(m, p, lo, n) <= PgdNeed(m, p, lo, n')
  {
  }

  lemma {:induction false} PudNeedKept(m: Memory, m': Memory, s: set<Word>, p: Page, n: nat)
    requires n <= ENTRIES && Kept(m, m', s)
    requires forall i: Index :: i < n ==> PudEntryIn(m, s, p[i])
    ensures PudNeed(m', p, n) == PudNeed(m, p, n)
  {
    if n > 0 {
      PudNeedKept(m, m', s, p, n - 1);
    }
  }

  lemma {:induction false} PgdSlotNeedKept(m: Memory, m': Memory, s: set<Word>, e: Word)
    requires PgdEntryIn(m, s, e) && Kept(m, m', s)
    ensures PgdSlotNeed(m', e) == PgdSlotNeed(m, e)
  {
    if !IsInvalid(e) {
      PudNeedKept(m, m', s, m[Frame(e)], ENTRIES);
    }
  }
}
