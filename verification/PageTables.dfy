/** Four-level paging trees in physical memory and the walk that gives them meaning. */
module PageTables {
  import opened PageWords

  const ENTRIES: nat := 512

  type Index = i: nat | i < ENTRIES
  type Page = p: seq<Word> | |p| == ENTRIES witness seq(ENTRIES, _ => ZERO)

  /** The pages in use, by frame address.  A frame outside the map is free. */
  type Memory = map<Word, Page>

  /** The four table indices of a virtual address. */
  datatype Address = Address(pgd: Index, pud: Index, pmd: Index, pte: Index)

  /** What a walk finds: the level at which it stops and, if a page is mapped there,
      the entry that maps it and the flags of the tables passed on the way, outermost first. */
  datatype Translation = Fault(level: nat) | Mapped(level: nat, leaf: Word, rights: seq<Word>)

  function ZeroPage(): Page {
    seq(ENTRIES, _ => ZERO)
  }

  function Entry(m: Memory, f: Word, i: Index): Word {
    if f in m then m[f][i] else ZERO
  }

  function Through(e: Word, t: Translation): Translation {
    if t.Mapped? then t.(rights := [Flags(e)] + t.rights) else t
  }

  function WalkPte(e: Word): Translation {
    if IsInvalid(e) then Fault(1) else Mapped(1, e, [])
  }

  function WalkPmd(m: Memory, e: Word, i4: Index): Translation {
    if IsInvalid(e) then Fault(2)
    else if PmdLarge(e) then Mapped(2, e, [])
    else Through(e, WalkPte(Entry(m, Frame(e), i4)))
  }

  function WalkPud(m: Memory, e: Word, i3: Index, i4: Index): Translation {
    if IsInvalid(e) then Fault(3)
    else if PudLarge(e) then Mapped(3, e, [])
    else Through(e, WalkPmd(m, Entry(m, Frame(e), i3), i4))
  }

  function WalkPgd(m: Memory, e: Word, i2: Index, i3: Index, i4: Index): Translation {
    if IsInvalid(e) then Fault(4)
    else Through(e, WalkPud(m, Entry(m, Frame(e), i2), i3, i4))
  }

  function Walk(m: Memory, root: Word, a: Address): Translation {
    WalkPgd(m, Entry(m, root, a.pgd), a.pud, a.pmd, a.pte)
  }

  // The tables below an entry, or below a page of entries, all lie in the set s.

  predicate PmdEntryIn(m: Memory, s: set<Word>, e: Word) {
    PmdTable(e) ==> Frame(e) in s && Frame(e) in m
  }

  predicate PmdPageIn(m: Memory, s: set<Word>, f: Word) {
    f in s && f in m && forall i: Index :: PmdEntryIn(m, s, m[f][i])
  }

  predicate PudEntryIn(m: Memory, s: set<Word>, e: Word) {
    PudTable(e) ==> PmdPageIn(m, s, Frame(e))
  }

  predicate PudPageIn(m: Memory, s: set<Word>, f: Word) {
    f in s && f in m && forall i: Index :: PudEntryIn(m, s, m[f][i])
  }

  predicate PgdEntryIn(m: Memory, s: set<Word>, e: Word) {
    !IsInvalid(e) ==> PudPageIn(m, s, Frame(e))
  }

  /** The root page is in use and everything below its slots lo..hi lies in s. */
  predicate TreeIn(m: Memory, s: set<Word>, root: Word, lo: nat, hi: nat) {
    root in m && forall i: Index :: lo <= i < hi ==> PgdEntryIn(m, s, m[root][i])
  }

  /** Every page of m that lies in s is still in use in m', with the same contents. */
  ghost predicate Kept(m: Memory, m': Memory, s: set<Word>) {
    forall f :: f in s && f in m ==> f in m' && m'[f] == m[f]
  }

  // A tree kept in place keeps its shape and its meaning.

  lemma PmdEntryKept(m: Memory, m': Memory, s: set<Word>, e: Word)
    requires PmdEntryIn(m, s, e) && Kept(m, m', s)
    ensures PmdEntryIn(m', s, e)
    ensures forall i4: Index :: WalkPmd(m', e, i4) == WalkPmd(m, e, i4)
  {
  }

  lemma PudEntryKept(m: Memory, m': Memory, s: set<Word>, e: Word)
    requires PudEntryIn(m, s, e) && Kept(m, m', s)
    ensures PudEntryIn(m', s, e)
    ensures forall i3: Index, i4: Index :: WalkPud(m', e, i3, i4) == WalkPud(m, e, i3, i4)
  {
  }

  lemma {:induction false} PgdEntryKept(m: Memory, m': Memory, s: set<Word>, e: Word)
    requires PgdEntryIn(m, s, e) && Kept(m, m', s)
    ensures PgdEntryIn(m', s, e)
    ensures forall i2: Index, i3: Index, i4: Index ::
      WalkPgd(m', e, i2, i3, i4) == WalkPgd(m, e, i2, i3, i4)
  {
    if !IsInvalid(e) {
      forall i2: Index
        ensures PudEntryIn(m', s, m[Frame(e)][i2])
        ensures forall i3: Index, i4: Index :: WalkPgd(m', e, i2, i3, i4) == WalkPgd(m, e, i2, i3, i4)
      {
        PudEntryKept(m, m', s, m[Frame(e)][i2]);
      }
    }
  }

  // A tree that lies in a set lies in every larger set.

  lemma PgdEntryGrow(m: Memory, s: set<Word>, s': set<Word>, e: Word)
    requires PgdEntryIn(m, s, e) && s <= s'
    ensures PgdEntryIn(m, s', e)
  {
  }
}
