/** The walk of the processor, which goes by the present bit of an entry and takes a page frame of
    zero like any other: section 4.5 of the Intel 64 and IA-32 Architectures Software Developer's
    Manual, volume 3A. */
module CpuWalk {
  import opened PageWords
  import opened PageTables

  /** The bits of a table entry that restrict what may be done below it: writing (bit 1), access in
      user mode (bit 2) and fetching instructions (bit 63). */
  datatype Rights = Rights(write: bool, user: bool, noExecute: bool)

  function RightsOf(e: Word): Rights {
    Rights(Bit(e, 1), Bit(e, 2), Bit(e, 63))
  }

  /** What the processor finds: the level at which an entry is not present, or the entry that maps a
      page, its level and the rights of the tables passed on the way, outermost first. */
  datatype Access = Faults(level: nat) | Maps(level: nat, leaf: Word, rights: seq<Rights>)

  function Below(e: Word, t: Access): Access {
    if t.Maps? then t.(rights := [RightsOf(e)] + t.rights) else t
  }

  function CpuPte(e: Word): Access {
    if !Bit(e, 0) then Faults(1) else Maps(1, e, [])
  }

  function CpuPmd(m: Memory, e: Word, i4: Index): Access {
    if !Bit(e, 0) then Faults(2)
    else if Bit(e, 7) then Maps(2, e, [])
    else Below(e, CpuPte(Entry(m, Frame(e), i4)))
  }

  function CpuPud(m: Memory, e: Word, i3: Index, i4: Index): Access {
    if !Bit(e, 0) then Faults(3)
    else if Bit(e, 7) then Maps(3, e, [])
    else Below(e, CpuPmd(m, Entry(m, Frame(e), i3), i4))
  }

  function CpuPgd(m: Memory, e: Word, i2: Index, i3: Index, i4: Index): Access {
    if !Bit(e, 0) then Faults(4)
    else Below(e, CpuPud(m, Entry(m, Frame(e), i2), i3, i4))
  }

  function Translate(m: Memory, root: Word, a: Address): Access {
    CpuPgd(m, Entry(m, root, a.pgd), a.pud, a.pmd, a.pte)
  }

  /** The rights and the kind of an entry rewritten to point at a new page. */
  lemma {:induction false} RetargetRights(p: Word, e: Word)
    requires IsFrame(p)
    ensures RightsOf(Retarget(p, e)) == RightsOf(e)
    ensures Bit(Retarget(p, e), 0) == Bit(e, 0) && Bit(Retarget(p, e), 7) == Bit(e, 7)
  {
    hide Bit, Retarget, IsFrame;
    RetargetBits(p, e, 0);
    RetargetBits(p, e, 1);
    RetargetBits(p, e, 2);
    RetargetBits(p, e, 7);
    RetargetBits(p, e, 63);
  }

  /** Looking through tables passed on the way hides nothing. */
  lemma {:induction false} BelowInjective(e: Word, t: Access, t': Access)
    ensures Below(e, t) == Below(e, t') <==> t == t'
  {
    hide RightsOf;
    if t.Maps? && t'.Maps? && Below(e, t) == Below(e, t') {
      assert ([RightsOf(e)] + t.rights)[1..] == t.rights;
      assert ([RightsOf(e)] + t'.rights)[1..] == t'.rights;
    }
  }

  // The tables the processor can reach below an entry all lie in the set s.

  predicate CpuPmdIn(m: Memory, s: set<Word>, e: Word) {
    Bit(e, 0) && !Bit(e, 7) ==> Frame(e) in s && Frame(e) in m
  }

  predicate CpuPudIn(m: Memory, s: set<Word>, e: Word) {
    Bit(e, 0) && !Bit(e, 7) ==>
      Frame(e) in s && Frame(e) in m && forall i: Index :: CpuPmdIn(m, s, m[Frame(e)][i])
  }

  predicate CpuPgdIn(m: Memory, s: set<Word>, e: Word) {
    Bit(e, 0) ==> Frame(e) in s && Frame(e) in m && forall i: Index :: CpuPudIn(m, s, m[Frame(e)][i])
  }

  /** The root page is in use and all the processor can reach below its slots lo..hi lies in s. */
  predicate CpuTreeIn(m: Memory, s: set<Word>, root: Word, lo: nat, hi: nat) {
    root in m && forall i: Index :: lo <= i < hi ==> CpuPgdIn(m, s, m[root][i])
  }

  // A tree kept in place keeps its meaning.

  lemma CpuPmdKept(m: Memory, m': Memory, s: set<Word>, e: Word)
    requires CpuPmdIn(m, s, e) && Kept(m, m', s)
    ensures forall i4: Index :: CpuPmd(m', e, i4) == CpuPmd(m, e, i4)
  {
  }

  lemma {:induction false} CpuPudKept(m: Memory, m': Memory, s: set<Word>, e: Word)
    requires CpuPudIn(m, s, e) && Kept(m, m', s)
    ensures forall i3: Index, i4: Index :: CpuPud(m', e, i3, i4) == CpuPud(m, e, i3, i4)
  {
    if Bit(e, 0) && !Bit(e, 7) {
      forall i3: Index, i4: Index ensures CpuPud(m', e, i3, i4) == CpuPud(m, e, i3, i4) {
        CpuPmdKept(m, m', s, m[Frame(e)][i3]);
      }
    }
  }

  lemma {:induction false} CpuPgdKept(m: Memory, m': Memory, s: set<Word>, e: Word)
    requires CpuPgdIn(m, s, e) && Kept(m, m', s)
    ensures forall i2: Index, i3: Index, i4: Index :: CpuPgd(m', e, i2, i3, i4) == CpuPgd(m, e, i2, i3, i4)
  {
    if Bit(e, 0) {
      forall i2: Index, i3: Index, i4: Index ensures CpuPgd(m', e, i2, i3, i4) == CpuPgd(m, e, i2, i3, i4) {
        CpuPudKept(m, m', s, m[Frame(e)][i2]);
      }
    }
  }
}
