/** What the two sweeps do to every word of memory, with the bits written out. */
module SweepWords {
  import opened PageWords
  import opened PageTables
  import opened PageSweeps
  import opened SweepTheorems

  /** The page that an entry points at. */
  function Target(e: Word): Word {
    Word(e.bits & 0x0000_ffff_ffff_f000)
  }

  predicate Points(e: Word) {
    e.bits & 0x0000_ffff_ffff_f000 != 0
  }

  /** Not an entry for a page of 1 GB: bits 0 and 7 are not both set. */
  predicate Smaller(e: Word) {
    e.bits & 0x81 != 0x81
  }

  predicate SetsRw(e: Word) {
    e.bits & 2 == 2
  }

  /** Slot i1 of the upper half of the root and slot i2 of the page below it lead to page f, as a page of
      PMD entries. */
  predicate LeadsTo(m: Memory, root: Word, i1: Index, i2: Index, f: Word) {
    var e1 := Entry(m, root, i1);
    var e2 := Entry(m, Target(e1), i2);
    256 <= i1 && Points(e1) && Points(e2) && Smaller(e2) && Target(e2) == f
  }

  /** The word of the PUD on this path is writable. */
  predicate LeadsWritably(m: Memory, root: Word, i1: Index, i2: Index, f: Word) {
    LeadsTo(m, root, i1, i2, f) && SetsRw(Entry(m, Target(Entry(m, root, i1)), i2))
  }

  lemma FrameWritten(e: Word)
    ensures Frame(e) == Target(e) && (IsInvalid(e) <==> !Points(e))
    ensures (PudLarge(e) <==> !Smaller(e)) && (Writable(e) <==> SetsRw(e))
  {
  }

  lemma {:induction false} LeadsExactly(m: Memory, root: Word, i1: Index, i2: Index, f: Word)
    ensures PointsAt(m, root, i1, i2, f) <==> LeadsTo(m, root, i1, i2, f)
    ensures PointsAt(m, root, i1, i2, f) && Writable(PudEntry(m, root, i1, i2)) <==> LeadsWritably(m, root, i1, i2, f)
  {
    hide Entry, Frame, IsInvalid, Writable, PudLarge, Target, Points, Smaller, SetsRw;
    var e1 := Entry(m, root, i1);
    FrameWritten(e1);
    FrameWritten(Entry(m, Frame(e1), i2));
  }

  lemma {:induction false} ReachedExactly(m: Memory, root: Word, f: Word)
    ensures f in Pages(m, root, false, ENTRIES) <==> exists i1: Index, i2: Index :: LeadsTo(m, root, i1, i2, f)
    ensures f in Pages(m, root, true, ENTRIES) <==> exists i1: Index, i2: Index :: LeadsWritably(m, root, i1, i2, f)
  {
    hide Pages, PointsAt, LeadsTo, LeadsWritably, Writable, PudEntry;
    PagesMeans(m, root, false, f);
    PagesMeans(m, root, true, f);
    forall i1: Index, i2: Index
      ensures PointsAt(m, root, i1, i2, f) <==> LeadsTo(m, root, i1, i2, f)
      ensures PointsAt(m, root, i1, i2, f) && Writable(PudEntry(m, root, i1, i2)) <==>
              LeadsWritably(m, root, i1, i2, f)
    {
      LeadsExactly(m, root, i1, i2, f);
    }
  }

  /** The word with bit 1 cleared, if it points at a page. */
  function Cleared(e: Word): Word {
    if Points(e) then Word(e.bits & 0xffff_ffff_ffff_fffd) else e
  }

  /** The word with bit 1 set, if it points at a page. */
  function Filled(e: Word): Word {
    if Points(e) then Word(e.bits | 2) else e
  }

  lemma ClosedWritable(e: Word)
    requires Points(e) && Writable(e)
    ensures ToggleRw(e) == Cleared(e)
  {
  }

  lemma ClosedAlready(e: Word)
    requires Points(e) && !Writable(e)
    ensures e == Cleared(e)
  {
  }

  lemma SweptWord(e: Word)
    ensures Close(e) == Cleared(e) && Open(e) == Filled(e)
  {
    hide IsInvalid, Points, Writable, ToggleRw, SetRw;
    FrameWritten(e);
    if Points(e) {
      OpenedWord(e);
      hide Cleared, Filled;
      if Writable(e) {
        ClosedWritable(e);
      } else {
        ClosedAlready(e);
      }
    }
  }

  lemma OpenedWord(e: Word)
    requires Points(e)
    ensures SetRw(e) == Filled(e)
  {
  }

  /** Closing clears bit 1 of every entry that points at a page, in the pages that the upper half leads
      to, and changes nothing else. */
  lemma {:induction false} ClosedWords(m: Memory, m': Memory, root: Word, f: Word, i: Index)
    requires Closed(m, m', Pages(m, root, false, ENTRIES)) && f in m
    ensures f in m' && m'[f][i] ==
      if exists i1: Index, i2: Index :: LeadsTo(m, root, i1, i2, f) then Cleared(m[f][i]) else m[f][i]
  {
    hide Pages, LeadsTo, LeadsWritably, Close, Cleared;
    ReachedExactly(m, root, f);
    SweptWord(m[f][i]);
  }

  /** Opening sets it in pages that the upper half leads to; among them are all those that a writable PUD
      entry leads to, and no others if no page serves as a page of PUD and of PMD entries. */
  lemma {:induction false} OpenedWords(m: Memory, m': Memory, root: Word, f: Word)
    requires Opened(m, m', OpenSet(m, root, ENTRIES)) && f in m
    ensures f in m'
    ensures
      var touched := f in OpenSet(m, root, ENTRIES);
      && (forall i: Index :: m'[f][i] == if touched then Filled(m[f][i]) else m[f][i])
      && (touched ==> exists i1: Index, i2: Index :: LeadsTo(m, root, i1, i2, f))
      && ((exists i1: Index, i2: Index :: LeadsWritably(m, root, i1, i2, f)) ==> touched)
      && (Separate(m, root) && touched ==> exists i1: Index, i2: Index :: LeadsWritably(m, root, i1, i2, f))
  {
    hide Pages, LeadsTo, LeadsWritably, Open, OpenSet, Separate, Filled;
    ReachedExactly(m, root, f);
    OpenSetBounds(m, root);
    if Separate(m, root) {
      OpenSetSeparate(m, root);
    }
    forall i: Index ensures m'[f][i] == if f in OpenSet(m, root, ENTRIES) then Filled(m[f][i]) else m[f][i] {
      SweptWord(m[f][i]);
    }
  }
}
