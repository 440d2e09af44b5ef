/** What the sweeps over a paging tree do together, for trees that share tables in any way. */
module SweepTheorems {
  import opened PageWords
  import opened PageTables
  import opened PageWalk
  import opened PageSweeps

  // ----- Which pages are opened -----

  /** Slot i2 of the PUD page below slot i1 of the root points at PMD page g. */
  predicate PointsAt(m: Memory, root: Word, i1: Index, i2: Index, g: Word) {
    HALF <= i1 && !IsInvalid(Entry(m, root, i1)) &&
    PudTable(PudEntry(m, root, i1, i2)) && Frame(PudEntry(m, root, i1, i2)) == g
  }

  function PudEntry(m: Memory, root: Word, i1: Index, i2: Index): Word {
    Entry(m, Frame(Entry(m, root, i1)), i2)
  }

  lemma {:induction false} PagesMeans(m: Memory, root: Word, open: bool, g: Word)
    ensures g in Pages(m, root, open, ENTRIES) <==>
            exists i1: Index, i2: Index :: PointsAt(m, root, i1, i2, g) &&
                (open ==> Writable(PudEntry(m, root, i1, i2)))
  {
    hide Entry, Frame, PudLarge, Writable;
    forall i1: Index, i2: Index | PointsAt(m, root, i1, i2, g) && (open ==> Writable(PudEntry(m, root, i1, i2)))
      ensures g in Pages(m, root, open, ENTRIES)
    {
      assert g in TablePages(m, Frame(Entry(m, root, i1)), open, ENTRIES);
    }
    if g in Pages(m, root, open, ENTRIES) {
      var i1: Index :| HALF <= i1 && !IsInvalid(Entry(m, root, i1)) &&
          g in TablePages(m, Frame(Entry(m, root, i1)), open, ENTRIES);
      var i2: Index :| Leads(Entry(m, Frame(Entry(m, root, i1)), i2), open) &&
          g == Frame(Entry(m, Frame(Entry(m, root, i1)), i2));
      assert PointsAt(m, root, i1, i2, g);
    }
  }

  /** The pages open when slot i2 of the PUD page below slot i1 of the root has its turn. */
  function Before(m: Memory, root: Word, i1: Index, i2: Index): set<Word> {
    Opening(m, Frame(Entry(m, root, i1)), OpenSet(m, root, i1), i2)
  }

  /** Slot i of a PUD page opens page g. */
  predicate OpensHere(m: Memory, pud: Word, s: set<Word>, i: Index, g: Word) {
    var e := Entry(m, pud, i);
    PudTable(e) && Frame(e) == g && (Writable(e) || pud in Opening(m, pud, s, i))
  }

  lemma {:induction false} OpeningMeans(m: Memory, pud: Word, s: set<Word>, n: nat, g: Word)
    requires n <= ENTRIES
    ensures g in Opening(m, pud, s, n) <==>
            g in s || exists i: Index :: i < n && OpensHere(m, pud, s, i, g)
  {
    hide Entry, Frame, PudLarge, Writable;
    if n > 0 {
      OpeningMeans(m, pud, s, n - 1, g);
      var i: Index := n - 1;
      assert OpensHere(m, pud, s, i, g) ==> g in Opening(m, pud, s, n);
    }
  }

  /** The PUD entry in slot i2 below slot i1 opens page g: it is writable, or opened in time. */
  predicate Opener(m: Memory, root: Word, i1: Index, i2: Index, g: Word) {
    PointsAt(m, root, i1, i2, g) &&
    (Writable(PudEntry(m, root, i1, i2)) || Frame(Entry(m, root, i1)) in Before(m, root, i1, i2))
  }

  lemma {:induction false} OpenerHere(m: Memory, root: Word, i1: Index, i2: Index, g: Word)
    requires HALF <= i1 && !IsInvalid(Entry(m, root, i1))
    ensures Opener(m, root, i1, i2, g) <==>
            OpensHere(m, Frame(Entry(m, root, i1)), OpenSet(m, root, i1), i2, g)
  {
    hide Entry, Frame, PudLarge, Writable;
  }

  lemma {:induction false} OpenSetMeansUpTo(m: Memory, root: Word, n: nat, g: Word)
    requires n <= ENTRIES
    ensures g in OpenSet(m, root, n) <==> exists i1: Index, i2: Index :: i1 < n && Opener(m, root, i1, i2, g)
  {
    hide Entry, Frame, PudLarge, Writable;
    if n > HALF {
      OpenSetMeansUpTo(m, root, n - 1, g);
      var i1: Index := n - 1;
      var e := Entry(m, root, i1);
      OpeningMeans(m, Frame(e), OpenSet(m, root, i1), ENTRIES, g);
      if !IsInvalid(e) {
        forall i2: Index ensures Opener(m, root, i1, i2, g) <==> OpensHere(m, Frame(e), OpenSet(m, root, i1), i2, g) {
          OpenerHere(m, root, i1, i2, g);
        }
      }
    }
  }

  /** A page is opened exactly if some PUD entry that leads to it opens it. */
  lemma {:induction false} OpenSetMeans(m: Memory, root: Word, g: Word)
    ensures g in OpenSet(m, root, ENTRIES) <==> exists i1: Index, i2: Index :: Opener(m, root, i1, i2, g)
  {
    hide Opener, OpenSet;
    OpenSetMeansUpTo(m, root, ENTRIES, g);
  }

  /** Opened are at least the pages below PUD entries writable at the start, and at most the
      pages reached. */
  lemma {:induction false} OpenSetBounds(m: Memory, root: Word)
    ensures Pages(m, root, true, ENTRIES) <= OpenSet(m, root, ENTRIES) <= Pages(m, root, false, ENTRIES)
  {
    hide Pages, OpenSet, PointsAt, PudEntry, Writable, Before;
    forall g
      ensures g in Pages(m, root, true, ENTRIES) ==> g in OpenSet(m, root, ENTRIES)
      ensures g in OpenSet(m, root, ENTRIES) ==> g in Pages(m, root, false, ENTRIES)
    {
      PagesMeans(m, root, true, g);
      PagesMeans(m, root, false, g);
      OpenSetMeans(m, root, g);
      if g in Pages(m, root, true, ENTRIES) {
        var i1: Index, i2: Index :| PointsAt(m, root, i1, i2, g) && Writable(PudEntry(m, root, i1, i2));
        assert Opener(m, root, i1, i2, g);
      }
    }
  }

  /** No PMD page reached also serves as a PUD page. */
  ghost predicate Separate(m: Memory, root: Word) {
    forall i: Index :: HALF <= i && !IsInvalid(Entry(m, root, i)) ==>
      Frame(Entry(m, root, i)) !in Pages(m, root, false, ENTRIES)
  }

  lemma {:induction false} BeforeReached(m: Memory, root: Word, i1: Index, i2: Index)
    requires HALF <= i1 && !IsInvalid(Entry(m, root, i1))
    ensures Before(m, root, i1, i2) <= Pages(m, root, false, ENTRIES)
  {
    hide Pages, OpenSet, Opening, Entry, Frame, PudLarge, Writable;
    var f := Frame(Entry(m, root, i1));
    forall g | g in Before(m, root, i1, i2) ensures g in Pages(m, root, false, ENTRIES) {
      OpeningMeans(m, f, OpenSet(m, root, i1), i2, g);
      OpenSetMeansUpTo(m, root, i1, g);
      PagesMeans(m, root, false, g);
      if g !in OpenSet(m, root, i1) {
        var i: Index :| i < i2 && OpensHere(m, f, OpenSet(m, root, i1), i, g);
        assert PointsAt(m, root, i1, i, g);
      }
    }
  }

  /** Without pages that serve at both levels, opened are exactly the pages below PUD entries
      writable at the start. */
  lemma {:induction false} OpenSetSeparate(m: Memory, root: Word)
    requires Separate(m, root)
    ensures OpenSet(m, root, ENTRIES) == Pages(m, root, true, ENTRIES)
  {
    hide Pages, OpenSet, Before, Writable, PudEntry;
    OpenSetBounds(m, root);
    forall g | g in OpenSet(m, root, ENTRIES) ensures g in Pages(m, root, true, ENTRIES) {
      OpenSetMeans(m, root, g);
      PagesMeans(m, root, true, g);
      var i1: Index, i2: Index :| Opener(m, root, i1, i2, g);
      BeforeReached(m, root, i1, i2);
    }
  }

  // ----- Sweeping twice -----

  /** Closing twice is closing once, whatever tables are shared. */
  lemma {:induction false} CloseTwice(m: Memory, m1: Memory, m2: Memory, root: Word)
    requires Closed(m, m1, Pages(m, root, false, ENTRIES))
    requires Closed(m1, m2, Pages(m1, root, false, ENTRIES))
    ensures m2 == m1
  {
    hide ClosePage, Pages, SameMemory;
    ClosedSame(m, m1, Pages(m, root, false, ENTRIES));
    PagesSame(m, m1, root, ENTRIES);
    forall f | f in m ensures m2[f] == m1[f] {
      LastPageSweepShows(m[f]);
    }
  }

  /** Closing undoes an opening: it leaves what closing alone would have left. */
  lemma {:induction false} CloseAfterOpen(m: Memory, m1: Memory, m2: Memory, c: Memory, root: Word, s: set<Word>)
    requires s <= Pages(m, root, false, ENTRIES) && Opened(m, m1, s)
    requires Closed(m1, m2, Pages(m1, root, false, ENTRIES))
    requires Closed(m, c, Pages(m, root, false, ENTRIES))
    ensures m2 == c
  {
    hide ClosePage, OpenPage, Pages, SameMemory;
    OpenedSame(m, m1, s);
    PagesSame(m, m1, root, ENTRIES);
    forall f | f in m ensures m2[f] == c[f] {
      LastPageSweepShows(m[f]);
    }
  }

  /** Every entry of the page that points at something is writable. */
  predicate AllOpen(m: Memory, g: Word) {
    forall i: Index :: IsInvalid(Entry(m, g, i)) || Writable(Entry(m, g, i))
  }

  /** A second opening finds nothing to do: below a page that the first one opens it reaches only
      pages that the first one opens too, or that are open already. */
  ghost predicate Settled(m: Memory, root: Word) {
    var s := OpenSet(m, root, ENTRIES);
    forall i1: Index, i2: Index, g ::
      PointsAt(m, root, i1, i2, g) && Frame(Entry(m, root, i1)) in s && g !in s ==> AllOpen(m, g)
  }

  lemma {:induction false} PointsAtSame(m: Memory, m': Memory, root: Word, i1: Index, i2: Index, g: Word)
    requires SameMemory(m, m')
    ensures Frame(Entry(m', root, i1)) == Frame(Entry(m, root, i1))
    ensures PointsAt(m', root, i1, i2, g) == PointsAt(m, root, i1, i2, g)
  {
    hide Entry, Frame, PudLarge, SameMemory;
    SameEntries(m, m', root, i1);
    SameEntries(m, m', Frame(Entry(m, root, i1)), i2);
  }

  lemma {:induction false} OpenPageIdle(m: Memory, g: Word)
    requires g in m
    ensures OpenPage(m[g], ENTRIES) == m[g] <==> AllOpen(m, g)
  {
    hide Open, Writable, Frame;
    forall i: Index ensures Open(m[g][i]) == m[g][i] <==> IsInvalid(Entry(m, g, i)) || Writable(Entry(m, g, i)) {
      OpenIdle(m[g][i]);
    }
    if OpenPage(m[g], ENTRIES) == m[g] {
      forall i: Index ensures IsInvalid(Entry(m, g, i)) || Writable(Entry(m, g, i)) {
        assert OpenPage(m[g], ENTRIES)[i] == Open(m[g][i]);
      }
    }
  }

  lemma {:induction false} OpenIdle(e: Word)
    ensures Open(e) == e <==> IsInvalid(e) || Writable(e)
  {
    hide Frame, Writable, SetRw;
    OpenMeans(e);
    if Writable(e) {
      SetRwKeeps(e);
    }
  }

  /** What a second opening adds is open already, if the tree is settled. */
  lemma {:induction false} SecondOpening(m: Memory, m1: Memory, root: Word, i1: Index, t: set<Word>, n: nat)
    requires Opened(m, m1, OpenSet(m, root, ENTRIES)) && Settled(m, root) && n <= ENTRIES
    requires HALF <= i1 && !IsInvalid(Entry(m, root, i1))
    requires forall g :: g in t ==> g in OpenSet(m, root, ENTRIES) || AllOpen(m, g)
    ensures forall g :: g in Opening(m1, Frame(Entry(m, root, i1)), t, n) ==>
      g in OpenSet(m, root, ENTRIES) || AllOpen(m, g)
  {
    hide Entry, Frame, PudLarge, Writable, OpenSet, Before, SameMemory;
    if n > 0 {
      SecondOpening(m, m1, root, i1, t, n - 1);
      var f, i: Index := Frame(Entry(m, root, i1)), n - 1;
      var e := Entry(m, f, i);
      var g := Frame(e);
      OpenedSame(m, m1, OpenSet(m, root, ENTRIES));
      SameEntries(m, m1, f, i);
      OpenedEntry(m, m1, OpenSet(m, root, ENTRIES), f, i);
      OpenSetMeans(m, root, g);
      if PudTable(e) {
        assert PointsAt(m, root, i1, i, g);
        assert Writable(e) ==> Opener(m, root, i1, i, g);
        assert AllOpen(m, f) ==> Writable(e);
      }
    }
  }

  lemma {:induction false} SecondOpenSet(m: Memory, m1: Memory, root: Word, n: nat)
    requires Opened(m, m1, OpenSet(m, root, ENTRIES)) && Settled(m, root) && n <= ENTRIES
    ensures forall g :: g in OpenSet(m1, root, n) ==> g in OpenSet(m, root, ENTRIES) || AllOpen(m, g)
  {
    hide Entry, Frame, Opening, AllOpen, Settled, SameMemory, Opened;
    if n > HALF {
      SecondOpenSet(m, m1, root, n - 1);
      OpenedSame(m, m1, OpenSet(m, root, ENTRIES));
      SameEntries(m, m1, root, n - 1);
      if !IsInvalid(Entry(m, root, n - 1)) {
        SecondOpening(m, m1, root, n - 1, OpenSet(m1, root, n - 1), ENTRIES);
      }
    }
  }

  /** Opening twice is opening once if and only if the tree is settled. */
  lemma {:induction false} OpenTwiceExactly(m: Memory, m1: Memory, m2: Memory, root: Word)
    requires Opened(m, m1, OpenSet(m, root, ENTRIES))
    requires Opened(m1, m2, OpenSet(m1, root, ENTRIES))
    ensures m2 == m1 <==> Settled(m, root)
  {
    hide OpenPage, SameMemory, OpenSet, AllOpen, Before, Writable, Entry, Frame, PudLarge;
    var s, t := OpenSet(m, root, ENTRIES), OpenSet(m1, root, ENTRIES);
    OpenedSame(m, m1, s);
    if Settled(m, root) {
      SecondOpenSet(m, m1, root, ENTRIES);
      forall f | f in m ensures m2[f] == m1[f] {
        LastPageSweepShows(m[f]);
        OpenPageIdle(m, f);
      }
    }
    if m2 == m1 {
      forall i1: Index, i2: Index, g
        | PointsAt(m, root, i1, i2, g) && Frame(Entry(m, root, i1)) in s && g !in s
        ensures AllOpen(m, g)
      {
        PointsAtSame(m, m1, root, i1, i2, g);
        OpenedEntry(m, m1, s, Frame(Entry(m, root, i1)), i2);
        OpenSetMeans(m1, root, g);
        assert Opener(m1, root, i1, i2, g);
        if g in m {
          OpenPageIdle(m, g);
        } else {
          NothingThere(m, g);
        }
      }
    }
  }

  lemma NothingThere(m: Memory, g: Word)
    requires g !in m
    ensures AllOpen(m, g)
  {
  }

  /** Trees without pages that serve at both levels are settled. */
  lemma {:induction false} SeparateSettled(m: Memory, root: Word)
    requires Separate(m, root)
    ensures Settled(m, root)
  {
    hide Pages, OpenSet, PudEntry, AllOpen;
    OpenSetBounds(m, root);
  }

  // ----- A tree that is not settled -----

  /** A PUD page whose second slot points at the page itself. */
  function LoopSample(): Memory {
    map[
      Word(0x1000) := ZeroPage()[256 := Word(0x2003)],
      Word(0x2000) := ZeroPage()[0 := Word(0x3001)][1 := Word(0x2003)],
      Word(0x3000) := ZeroPage()[0 := Word(0x4001)]]
  }

  lemma SampleWords()
    ensures IsInvalid(ZERO) && !Writable(ZERO)
    ensures Frame(Word(0x2003)) == Word(0x2000) && Writable(Word(0x2003)) && !PudLarge(Word(0x2003))
    ensures Frame(Word(0x3001)) == Word(0x3000) && !Writable(Word(0x3001)) && !PudLarge(Word(0x3001))
    ensures Frame(Word(0x4001)) == Word(0x4000) && !Writable(Word(0x4001))
  {
  }

  lemma {:induction false} LoopSampleShape(i1: Index, i2: Index, g: Word)
    ensures PointsAt(LoopSample(), Word(0x1000), i1, i2, g) <==>
            i1 == 256 && ((i2 == 0 && g == Word(0x3000)) || (i2 == 1 && g == Word(0x2000)))
    ensures Frame(Entry(LoopSample(), Word(0x1000), 256)) == Word(0x2000)
    ensures Writable(PudEntry(LoopSample(), Word(0x1000), 256, i2)) == (i2 == 1)
    ensures Entry(LoopSample(), Word(0x3000), 0) == Word(0x4001)
    ensures Entry(LoopSample(), Word(0x2000), 0) == Word(0x3001) && Entry(LoopSample(), Word(0x2000), 1) == Word(0x2003)
  {
    hide Frame, Writable, PudLarge;
    SampleWords();
    var m := LoopSample();
    assert Entry(m, Word(0x1000), i1) == if i1 == 256 then Word(0x2003) else ZERO;
    assert Entry(m, Word(0x1000), 256) == Word(0x2003);
    assert Entry(m, Word(0x2000), i2) == if i2 == 0 then Word(0x3001) else if i2 == 1 then Word(0x2003) else ZERO;
  }

  /** The first sweep opens the page that points at itself, and no other. */
  lemma {:induction false} LoopSampleOpens(g: Word)
    ensures g in OpenSet(LoopSample(), Word(0x1000), ENTRIES) <==> g == Word(0x2000)
  {
    hide LoopSample, Frame, Writable, PudLarge, PointsAt, PudEntry, Entry;
    var m, root := LoopSample(), Word(0x1000);
    OpenSetMeans(m, root, g);
    LoopSampleShape(256, 1, g);
    assert Before(m, root, 256, 0) == OpenSet(m, root, 256) == {};
    forall i1: Index, i2: Index | Opener(m, root, i1, i2, g) ensures g == Word(0x2000) {
      LoopSampleShape(i1, i2, g);
    }
    if g == Word(0x2000) {
      assert Opener(m, root, 256, 1, g);
    }
  }

  /** Opening this tree twice is not opening it once: the second sweep opens another page. */
  lemma {:induction false} OpenTwiceSample(m1: Memory, m2: Memory)
    requires Opened(LoopSample(), m1, OpenSet(LoopSample(), Word(0x1000), ENTRIES))
    requires Opened(m1, m2, OpenSet(m1, Word(0x1000), ENTRIES))
    ensures m2 != m1
  {
    hide LoopSample, Frame, Writable, PudLarge, PointsAt, PudEntry, Entry, OpenSet, Opened;
    var m, root := LoopSample(), Word(0x1000);
    OpenTwiceExactly(m, m1, m2, root);
    LoopSampleOpens(Word(0x2000));
    LoopSampleOpens(Word(0x3000));
    LoopSampleShape(256, 0, Word(0x3000));
    SampleWords();
    assert !AllOpen(m, Word(0x3000));
  }

  // ----- Closing and opening again -----

  /** After closing and opening again, memory is what opening the pages opened makes of the
      closed memory. */
  lemma {:induction false} CloseThenOpen(m: Memory, m1: Memory, m2: Memory, root: Word)
    requires Closed(m, m1, Pages(m, root, false, ENTRIES))
    requires Opened(m1, m2, OpenSet(m1, root, ENTRIES))
    ensures SameMemory(m, m2)
    ensures OpenSet(m1, root, ENTRIES) <= Pages(m, root, false, ENTRIES)
    ensures forall f :: f in m ==>
      m2[f] == if f in OpenSet(m1, root, ENTRIES) then OpenPage(m[f], ENTRIES)
               else if f in Pages(m, root, false, ENTRIES) then ClosePage(m[f], ENTRIES)
               else m[f]
  {
    hide ClosePage, OpenPage, Pages, OpenSet, SameButRw;
    ClosedSame(m, m1, Pages(m, root, false, ENTRIES));
    PagesSame(m, m1, root, ENTRIES);
    OpenSetBounds(m1, root);
    OpenedSame(m1, m2, OpenSet(m1, root, ENTRIES));
    forall f | f in m
      ensures m2[f] == if f in OpenSet(m1, root, ENTRIES) then OpenPage(m[f], ENTRIES)
                       else if f in Pages(m, root, false, ENTRIES) then ClosePage(m[f], ENTRIES)
                       else m[f]
    {
      LastPageSweepShows(m[f]);
    }
    forall f, i: Index | f in m ensures SameButRw(m[f][i], m2[f][i]) {
      SameButRwTrans(m[f][i], m1[f][i], m2[f][i]);
    }
  }

  /** An entry that points at something is writable after closing and opening again exactly if
      its page is opened, or is not reached and the entry was writable. */
  lemma {:induction false} EntryAfter(m: Memory, m1: Memory, m2: Memory, root: Word, f: Word, i: Index)
    requires Closed(m, m1, Pages(m, root, false, ENTRIES))
    requires Opened(m1, m2, OpenSet(m1, root, ENTRIES))
    requires !IsInvalid(Entry(m, f, i))
    ensures Writable(Entry(m2, f, i)) <==>
            f in OpenSet(m1, root, ENTRIES) || (f !in Pages(m, root, false, ENTRIES) && Writable(Entry(m, f, i)))
  {
    hide Pages, OpenSet, Frame, Writable, Close, Open, SameMemory;
    CloseThenOpen(m, m1, m2, root);
    ZeroInvalid();
    CloseMeans(Entry(m, f, i));
    OpenMeans(Entry(m, f, i));
  }

  // The pages opened after closing the pages c, in terms of memory as it was before: an entry of such
  // a page is not writable any more when its turn comes, unless its page has been opened.

  function Reopening(m: Memory, c: set<Word>, pud: Word, s: set<Word>, n: nat): set<Word>
    requires n <= ENTRIES
  {
    if n == 0 then s
    else
      var s' := Reopening(m, c, pud, s, n - 1);
      var e := Entry(m, pud, n - 1);
      if PudTable(e) && ((Writable(e) && pud !in c) || pud in s') then s' + {Frame(e)} else s'
  }

  function ReopenSet(m: Memory, c: set<Word>, root: Word, n: nat): set<Word>
    requires n <= ENTRIES
  {
    if n <= HALF then {}
    else
      var s := ReopenSet(m, c, root, n - 1);
      var e := Entry(m, root, n - 1);
      if IsInvalid(e) then s else Reopening(m, c, Frame(e), s, ENTRIES)
  }

  /** The pages open again when slot i2 of the PUD page below slot i1 of the root has its turn. */
  function ReopenedBefore(m: Memory, c: set<Word>, root: Word, i1: Index, i2: Index): set<Word> {
    Reopening(m, c, Frame(Entry(m, root, i1)), ReopenSet(m, c, root, i1), i2)
  }

  /** The PUD entry in slot i2 below slot i1 opens page g again: it is writable and not closed, or
      opened in time. */
  predicate Reopener(m: Memory, c: set<Word>, root: Word, i1: Index, i2: Index, g: Word) {
    var pud := Frame(Entry(m, root, i1));
    PointsAt(m, root, i1, i2, g) &&
    ((Writable(PudEntry(m, root, i1, i2)) && pud !in c) || pud in ReopenedBefore(m, c, root, i1, i2))
  }

  lemma {:induction false} ClosedPudEntry(m: Memory, m1: Memory, c: set<Word>, pud: Word, i: Index)
    requires Closed(m, m1, c)
    ensures var e, e1 := Entry(m, pud, i), Entry(m1, pud, i);
            && IsInvalid(e1) == IsInvalid(e) && PudTable(e1) == PudTable(e) && Frame(e1) == Frame(e)
            && (!IsInvalid(e) ==> (Writable(e1) <==> Writable(e) && pud !in c))
  {
    hide Frame, PudLarge, Writable, SameMemory, Close;
    ClosedSame(m, m1, c);
    SameEntries(m, m1, pud, i);
    CloseMeans(Entry(m, pud, i));
    ZeroInvalid();
  }

  lemma {:induction false} ReopeningMeans(m: Memory, m1: Memory, c: set<Word>, pud: Word, s: set<Word>, n: nat)
    requires Closed(m, m1, c) && n <= ENTRIES
    ensures Opening(m1, pud, s, n) == Reopening(m, c, pud, s, n)
  {
    hide Entry, Frame, PudLarge, Writable, Closed;
    if n > 0 {
      ReopeningMeans(m, m1, c, pud, s, n - 1);
      ClosedPudEntry(m, m1, c, pud, n - 1);
    }
  }

  lemma {:induction false} ReopenSetMeans(m: Memory, m1: Memory, c: set<Word>, root: Word, n: nat)
    requires Closed(m, m1, c) && n <= ENTRIES
    ensures OpenSet(m1, root, n) == ReopenSet(m, c, root, n)
  {
    hide Entry, Frame, PudLarge, Writable, Closed, Opening, Reopening;
    if n > HALF {
      ReopenSetMeans(m, m1, c, root, n - 1);
      ClosedPudEntry(m, m1, c, root, n - 1);
      ReopeningMeans(m, m1, c, Frame(Entry(m, root, n - 1)), OpenSet(m1, root, n - 1), ENTRIES);
    }
  }

  /** A PMD entry reached that points at something is writable after closing and opening again
      exactly if some PUD entry that leads to it is writable and in no page closed, or in a page that
      is opened again before its turn. */
  lemma {:induction false} WritableExactly(m: Memory, m1: Memory, m2: Memory, root: Word, g: Word, i: Index)
    requires Closed(m, m1, Pages(m, root, false, ENTRIES))
    requires Opened(m1, m2, OpenSet(m1, root, ENTRIES))
    requires g in Pages(m, root, false, ENTRIES) && !IsInvalid(Entry(m, g, i))
    ensures Writable(Entry(m2, g, i)) <==>
            exists i1: Index, i2: Index :: Reopener(m, Pages(m, root, false, ENTRIES), root, i1, i2, g)
  {
    hide Pages, OpenSet, Frame, Writable, Entry, Opener, Reopener, Closed, Opened;
    EntryAfter(m, m1, m2, root, g, i);
    OpenSetMeans(m1, root, g);
    forall i1: Index, i2: Index
      ensures Opener(m1, root, i1, i2, g) == Reopener(m, Pages(m, root, false, ENTRIES), root, i1, i2, g)
    {
      ReopenerMeans(m, m1, Pages(m, root, false, ENTRIES), root, i1, i2, g);
    }
  }

  lemma {:induction false} ReopenerMeans(m: Memory, m1: Memory, c: set<Word>, root: Word, i1: Index, i2: Index, g: Word)
    requires Closed(m, m1, c)
    ensures Opener(m1, root, i1, i2, g) == Reopener(m, c, root, i1, i2, g)
  {
    hide Entry, Frame, PudLarge, Writable, Closed, Opening, Reopening, OpenSet, ReopenSet;
    var pud := Frame(Entry(m, root, i1));
    ClosedPudEntry(m, m1, c, root, i1);
    ClosedPudEntry(m, m1, c, pud, i2);
    ReopenSetMeans(m, m1, c, root, i1);
    ReopeningMeans(m, m1, c, pud, ReopenSet(m, c, root, i1), i2);
  }

  /** Closing leaves a tree without shared levels separate, with the same PUD entries. */
  lemma {:induction false} ClosedSeparate(m: Memory, m1: Memory, root: Word)
    requires Separate(m, root) && Closed(m, m1, Pages(m, root, false, ENTRIES))
    ensures Separate(m1, root)
    ensures forall i1: Index, i2: Index :: HALF <= i1 && !IsInvalid(Entry(m, root, i1)) ==>
      PudEntry(m1, root, i1, i2) == PudEntry(m, root, i1, i2)
  {
    hide Frame, PudLarge, Writable, SameMemory, Pages, ClosePage;
    ClosedSame(m, m1, Pages(m, root, false, ENTRIES));
    PagesSame(m, m1, root, ENTRIES);
    forall i: Index ensures Frame(Entry(m1, root, i)) == Frame(Entry(m, root, i)) {
      SameEntries(m, m1, root, i);
    }
  }

  /** Without pages that serve at both levels: exactly if some PUD entry that leads to it is
      writable to begin with. */
  lemma {:induction false} WritableSeparate(m: Memory, m1: Memory, m2: Memory, root: Word, g: Word, i: Index)
    requires Separate(m, root)
    requires Closed(m, m1, Pages(m, root, false, ENTRIES))
    requires Opened(m1, m2, OpenSet(m1, root, ENTRIES))
    requires g in Pages(m, root, false, ENTRIES) && !IsInvalid(Entry(m, g, i))
    ensures Writable(Entry(m2, g, i)) <==>
            exists i1: Index, i2: Index :: PointsAt(m, root, i1, i2, g) && Writable(PudEntry(m, root, i1, i2))
  {
    hide Pages, OpenSet, Frame, Writable, Entry, PudLarge, PudEntry, SameMemory, Separate;
    EntryAfter(m, m1, m2, root, g, i);
    ClosedSame(m, m1, Pages(m, root, false, ENTRIES));
    ClosedSeparate(m, m1, root);
    OpenSetSeparate(m1, root);
    PagesMeans(m1, root, true, g);
    forall i1: Index, i2: Index ensures PointsAt(m1, root, i1, i2, g) == PointsAt(m, root, i1, i2, g) {
      PointsAtSame(m, m1, root, i1, i2, g);
    }
  }

  /** With such a page that fails: here a writable PUD entry leads to a page that is not opened
      again, for closing takes the writable bit of that PUD entry itself. */
  lemma {:induction false} WritableSample(m1: Memory, m2: Memory)
    requires Closed(LoopSample(), m1, Pages(LoopSample(), Word(0x1000), false, ENTRIES))
    requires Opened(m1, m2, OpenSet(m1, Word(0x1000), ENTRIES))
    ensures PointsAt(LoopSample(), Word(0x1000), 256, 1, Word(0x2000))
    ensures Writable(PudEntry(LoopSample(), Word(0x1000), 256, 1))
    ensures !Writable(Entry(m2, Word(0x2000), 1))
  {
    hide LoopSample, Frame, Writable, PudLarge, Entry, OpenSet, Pages, Close;
    var m, root, f := LoopSample(), Word(0x1000), Word(0x2000);
    LoopSampleShape(256, 1, f);
    SampleWords();
    ZeroInvalid();
    PagesMeans(m, root, false, f);
    EntryAfter(m, m1, m2, root, f, 1);
    ClosedSame(m, m1, Pages(m, root, false, ENTRIES));
    OpenSetMeans(m1, root, f);
    forall i1: Index, i2: Index ensures !Opener(m1, root, i1, i2, f) {
      PointsAtSame(m, m1, root, i1, i2, f);
      LoopSampleShape(i1, i2, f);
      if i1 == 256 && i2 == 1 {
        ClosedEntry(m, m1, Pages(m, root, false, ENTRIES), f, 0);
        ClosedEntry(m, m1, Pages(m, root, false, ENTRIES), f, 1);
        NothingBefore(m1, root);
      }
    }
  }

  lemma {:induction false} ClosedEntry(m: Memory, m1: Memory, s: set<Word>, f: Word, i: Index)
    requires Closed(m, m1, s) && f in s && !IsInvalid(Entry(m, f, i))
    ensures !Writable(Entry(m1, f, i))
  {
    hide Close, Frame, Writable;
    ZeroInvalid();
    CloseMeans(Entry(m, f, i));
  }

  /** With one slot of the upper half done, a PUD entry that is not writable has opened nothing. */
  lemma {:induction false} NothingBefore(m: Memory, root: Word)
    requires !Writable(PudEntry(m, root, 256, 0))
    ensures Before(m, root, 256, 1) == {}
  {
    hide Entry, Frame, Writable, PudLarge;
    assert Opening(m, Frame(Entry(m, root, 256)), {}, 0) == {};
  }

  // ----- What the sweeps mean for translations -----

  lemma WalkPointsAt(m: Memory, root: Word, a: Address)
    requires 256 <= a.pgd && Walk(m, root, a).Mapped? && Walk(m, root, a).level <= 2
    ensures PointsAt(m, root, a.pgd, a.pud, Frame(PudEntry(m, root, a.pgd, a.pud)))
    ensures !IsInvalid(Entry(m, Frame(PudEntry(m, root, a.pgd, a.pud)), a.pmd))
  {
  }

  /** The entries that decide whether an address mapped at level 1 or 2 can be written. */
  lemma {:induction false} WritableMeans(m: Memory, root: Word, a: Address)
    requires Walk(m, root, a).Mapped? && Walk(m, root, a).level <= 2
    ensures var t, e2 := Walk(m, root, a), PudEntry(m, root, a.pgd, a.pud);
            var e3 := Entry(m, Frame(e2), a.pmd);
            && (t.level == 1 <==> !PmdLarge(e3))
            && |t.rights| >= 2
            && Writable(t.rights[0]) == Writable(Entry(m, root, a.pgd)) && Writable(t.rights[1]) == Writable(e2)
            && (t.level == 1 ==> t.leaf == Entry(m, Frame(e3), a.pte))
            && WritableThroughout(t) ==
               (Writable(Entry(m, root, a.pgd)) && Writable(e2) && Writable(e3) && (t.level == 1 ==> Writable(t.leaf)))
  {
    hide Entry, Frame, PudLarge, PmdLarge, Flags, Writable;
    var e1, e2 := Entry(m, root, a.pgd), PudEntry(m, root, a.pgd, a.pud);
    var e3 := Entry(m, Frame(e2), a.pmd);
    FlagsWritable(e1);
    FlagsWritable(e2);
    FlagsWritable(e3);
    var t := Walk(m, root, a);
    assert t.rights == [Flags(e1), Flags(e2)] + if PmdLarge(e3) then [] else [Flags(e3)];
    assert PmdLarge(e3) ==> t.leaf == e3;
    assert WritableThroughout(t) ==>
      Writable(t.rights[0]) && Writable(t.rights[1]) && (!PmdLarge(e3) ==> Writable(t.rights[2]));
  }

  /** After closing, the only addresses of the upper half that can be written through every
      table on their path are those mapped by 1 GB pages, whatever tables are shared. */
  lemma {:induction false} ClosedIsReadOnly(m: Memory, m': Memory, root: Word, a: Address)
    requires 256 <= a.pgd && Closed(m, m', Pages(m, root, false, ENTRIES))
    ensures WritableThroughout(Walk(m', root, a)) ==> Walk(m', root, a).level == 3
  {
    hide Walk, Pages, Frame, PudLarge, PmdLarge, Writable, SameMemory, Close, WritableThroughout;
    var t := Walk(m', root, a);
    assert t.Mapped? ==> 1 <= t.level <= 3 by { LevelMapped(m', root, a); }
    assert WritableThroughout(t) ==> t.Mapped? by { WritableMapped(t); }
    if t.Mapped? && t.level <= 2 {
      var f := Frame(PudEntry(m', root, a.pgd, a.pud));
      WalkPointsAt(m', root, a);
      WritableMeans(m', root, a);
      PagesMeans(m', root, false, f);
      ClosedSame(m, m', Pages(m, root, false, ENTRIES));
      PagesSame(m, m', root, ENTRIES);
      CloseMeans(Entry(m, f, a.pmd));
      ZeroInvalid();
    }
  }

  lemma {:induction false} LevelMapped(m: Memory, root: Word, a: Address)
    ensures Walk(m, root, a).Mapped? ==> 1 <= Walk(m, root, a).level <= 3
  {
    hide Entry, Frame, PudLarge, PmdLarge, Flags;
  }

  lemma WritableMapped(t: Translation)
    ensures WritableThroughout(t) ==> t.Mapped?
  {
  }

  /** The entry in slot i of page f is writable after closing and opening again. */
  predicate StaysOpen(m: Memory, root: Word, f: Word, i: Index) {
    f in ReopenSet(m, Pages(m, root, false, ENTRIES), root, ENTRIES) ||
        (f !in Pages(m, root, false, ENTRIES) && Writable(Entry(m, f, i)))
  }

  /** After closing and opening again, an address of the upper half mapped at level 1 or 2 can be
      written exactly if each entry on its path is writable then, in a tree of any shape. */
  lemma {:induction false} RoundTripExactly(m: Memory, m1: Memory, m2: Memory, root: Word, a: Address)
    requires Closed(m, m1, Pages(m, root, false, ENTRIES))
    requires Opened(m1, m2, OpenSet(m1, root, ENTRIES))
    requires Walk(m, root, a).Mapped? && Walk(m, root, a).level <= 2
    ensures WritableThroughout(Walk(m2, root, a)) <==>
            var e1, e2 := Entry(m, root, a.pgd), PudEntry(m, root, a.pgd, a.pud);
            var e3 := Entry(m, Frame(e2), a.pmd);
            && StaysOpen(m, root, root, a.pgd) && StaysOpen(m, root, Frame(e1), a.pud)
            && StaysOpen(m, root, Frame(e2), a.pmd)
            && (Walk(m, root, a).level == 1 ==> StaysOpen(m, root, Frame(e3), a.pte))
  {
    hide Walk, Pages, OpenSet, ReopenSet, Frame, PudLarge, PmdLarge, Writable, SameButRw, WritableThroughout, Closed,
      Opened, Entry;
    ReopenSetMeans(m, m1, Pages(m, root, false, ENTRIES), root, ENTRIES);
    CloseThenOpen(m, m1, m2, root);
    SameWalks(m, m2, root, a);
    WritableMeans(m, root, a);
    WritableMeans(m2, root, a);
    WalkValid(m, root, a);
    var f2, f3 := Frame(Entry(m, root, a.pgd)), Frame(PudEntry(m, root, a.pgd, a.pud));
    var f4 := Frame(Entry(m, f3, a.pmd));
    SameEntries(m, m2, root, a.pgd);
    SameEntries(m, m2, f2, a.pud);
    SameEntries(m, m2, f3, a.pmd);
    EntryAfter(m, m1, m2, root, root, a.pgd);
    EntryAfter(m, m1, m2, root, f2, a.pud);
    EntryAfter(m, m1, m2, root, f3, a.pmd);
    if Walk(m, root, a).level == 1 {
      EntryAfter(m, m1, m2, root, f4, a.pte);
    }
  }

  /** The entries on the path of a mapped address all point at something. */
  lemma WalkValid(m: Memory, root: Word, a: Address)
    requires Walk(m, root, a).Mapped? && Walk(m, root, a).level <= 2
    ensures var e1, e2 := Entry(m, root, a.pgd), PudEntry(m, root, a.pgd, a.pud);
            var e3 := Entry(m, Frame(e2), a.pmd);
            && !IsInvalid(e1) && !IsInvalid(e2) && !IsInvalid(e3)
            && (Walk(m, root, a).level == 1 ==> !IsInvalid(Entry(m, Frame(e3), a.pte)))
  {
  }

  /** The PMD pages reached serve as tables of no other level. */
  ghost predicate LevelsApart(m: Memory, root: Word) {
    && Separate(m, root)
    && root !in Pages(m, root, false, ENTRIES)
    && forall g, i: Index :: g in Pages(m, root, false, ENTRIES) && PmdTable(Entry(m, g, i)) ==>
         Frame(Entry(m, g, i)) !in Pages(m, root, false, ENTRIES)
  }

  /** With levels apart the round trip forgets the writable bits of the PMD level: what counts
      are the other entries on the path, even if the PMD entry was not writable. */
  lemma {:induction false} RoundTripForgets(m: Memory, m1: Memory, m2: Memory, root: Word, a: Address)
    requires LevelsApart(m, root) && 256 <= a.pgd
    requires Closed(m, m1, Pages(m, root, false, ENTRIES))
    requires Opened(m1, m2, OpenSet(m1, root, ENTRIES))
    requires Walk(m, root, a).Mapped? && Walk(m, root, a).level <= 2
    ensures |Walk(m, root, a).rights| >= 2
    ensures WritableThroughout(Walk(m2, root, a)) <==>
            var t := Walk(m, root, a);
            Writable(t.rights[0]) && Writable(t.rights[1]) && (t.level == 1 ==> Writable(t.leaf))
  {
    hide Walk, Pages, OpenSet, ReopenSet, Frame, PudLarge, PmdLarge, Writable, WritableThroughout, Separate, Closed,
      Opened, Entry;
    ReopenSetMeans(m, m1, Pages(m, root, false, ENTRIES), root, ENTRIES);
    RoundTripExactly(m, m1, m2, root, a);
    WritableMeans(m, root, a);
    WalkValid(m, root, a);
    WalkPointsAt(m, root, a);
    OpenSetBounds(m1, root);
    ClosedSame(m, m1, Pages(m, root, false, ENTRIES));
    PagesSame(m, m1, root, ENTRIES);
    var f3 := Frame(PudEntry(m, root, a.pgd, a.pud));
    PagesMeans(m, root, false, f3);
    assert Frame(Entry(m, root, a.pgd)) !in Pages(m, root, false, ENTRIES) by { SeparateAt(m, root, a.pgd); }
    ClosedSeparate(m, m1, root);
    OpenSetSeparate(m1, root);
    PointsAtSame(m, m1, root, a.pgd, a.pud, f3);
    PagesMeans(m1, root, true, f3);
  }

  lemma SeparateAt(m: Memory, root: Word, i: Index)
    requires Separate(m, root) && HALF <= i && !IsInvalid(Entry(m, root, i))
    ensures Frame(Entry(m, root, i)) !in Pages(m, root, false, ENTRIES)
  {
  }
}
