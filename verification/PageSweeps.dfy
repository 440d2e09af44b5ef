/** The sweeps that write-protect the PMD level of the upper half of a live paging tree, and
    make it writable again, in place. */
module PageSweeps {
  import opened PageWords
  import opened PageTables
  import opened PhysicalMemory
  import opened PageWalk

  /** The upper half of the address space starts at this slot of the root. */
  const HALF: nat := 256

  // ----- Entries and pages -----

  function Close(e: Word): Word {
    if IsInvalid(e) || !Writable(e) then e else ToggleRw(e)
  }

  function Open(e: Word): Word {
    if IsInvalid(e) then e else SetRw(e)
  }

  lemma CloseMeans(e: Word)
    ensures SameButRw(e, Close(e)) && IsInvalid(Close(e)) == IsInvalid(e)
    ensures Writable(Close(e)) ==> IsInvalid(e)
  {
  }

  lemma OpenMeans(e: Word)
    ensures SameButRw(e, Open(e)) && IsInvalid(Open(e)) == IsInvalid(e)
    ensures Writable(Open(e)) == (!IsInvalid(e) || Writable(e))
  {
  }

  /** Whatever was done to an entry before, only the last sweep over it shows. */
  lemma {:induction false} LastSweepShows(e: Word)
    ensures Close(Close(e)) == Close(e) == Close(Open(e))
    ensures Open(Open(e)) == Open(e) == Open(Close(e))
  {
    hide Frame, Flags, PudLarge, PmdLarge, Writable, ToggleRw, SetRw;
    var t := ToggleRw(e);
    ToggleRwTwice(e);
    ToggleRwFlips(e);
    ToggleRwFrame(e);
    if Writable(e) {
      SetRwKeeps(e);
      SetRwFlips(t);
    } else {
      SetRwFlips(e);
      SetRwKeeps(t);
    }
  }

  function ClosePage(p: Page, n: nat): Page {
    seq(ENTRIES, i requires 0 <= i < ENTRIES => if i < n then Close(p[i]) else p[i])
  }

  function OpenPage(p: Page, n: nat): Page {
    seq(ENTRIES, i requires 0 <= i < ENTRIES => if i < n then Open(p[i]) else p[i])
  }

  lemma {:induction false} LastPageSweepShows(p: Page)
    ensures ClosePage(ClosePage(p, ENTRIES), ENTRIES) == ClosePage(p, ENTRIES)
    ensures ClosePage(OpenPage(p, ENTRIES), ENTRIES) == ClosePage(p, ENTRIES)
    ensures OpenPage(OpenPage(p, ENTRIES), ENTRIES) == OpenPage(p, ENTRIES)
    ensures OpenPage(ClosePage(p, ENTRIES), ENTRIES) == OpenPage(p, ENTRIES)
  {
    hide Close, Open;
    forall i: Index
      ensures Close(Close(p[i])) == Close(p[i]) == Close(Open(p[i]))
      ensures Open(Open(p[i])) == Open(p[i]) == Open(Close(p[i]))
    {
      LastSweepShows(p[i]);
    }
  }

  // ----- Which pages a sweep reaches -----

  /** A sweep goes on below this PUD entry; the one that opens, only if the entry is writable. */
  predicate Leads(e: Word, open: bool) {
    PudTable(e) && (open ==> Writable(e))
  }

  /** The PMD pages below slots 0..n of a PUD page. */
  function TablePages(m: Memory, pud: Word, open: bool, n: nat): set<Word> {
    set i: Index | 0 <= i < n && Leads(Entry(m, pud, i), open) :: Frame(Entry(m, pud, i))
  }

  /** The PMD pages below slots 256..n of the root. */
  function Pages(m: Memory, root: Word, open: bool, n: nat): set<Word> {
    set i: Index, g | HALF <= i < n && !IsInvalid(Entry(m, root, i)) &&
                      g in TablePages(m, Frame(Entry(m, root, i)), open, ENTRIES) :: g
  }

  /** Every table a sweep steps into is in use. */
  ghost predicate InUse(m: Memory, root: Word) {
    root in m && Pages(m, root, false, ENTRIES) <= m.Keys &&
    forall i: Index :: HALF <= i && !IsInvalid(Entry(m, root, i)) ==> Frame(Entry(m, root, i)) in m
  }

  /** m' is m with every entry of the pages in s closed. */
  ghost predicate Closed(m: Memory, m': Memory, s: set<Word>) {
    m'.Keys == m.Keys && forall f :: f in m ==> m'[f] == if f in s then ClosePage(m[f], ENTRIES) else m[f]
  }

  /** m' is m with every entry of the pages in s opened. */
  ghost predicate Opened(m: Memory, m': Memory, s: set<Word>) {
    m'.Keys == m.Keys && forall f :: f in m ==> m'[f] == if f in s then OpenPage(m[f], ENTRIES) else m[f]
  }

  lemma ClosedSame(m: Memory, m': Memory, s: set<Word>)
    requires Closed(m, m', s)
    ensures SameMemory(m, m')
  {
  }

  lemma {:induction false} OpenedSame(m: Memory, m': Memory, s: set<Word>)
    requires Opened(m, m', s)
    ensures SameMemory(m, m')
  {
    hide Open, ToggleRw;
    forall f, i: Index | f in m ensures SameButRw(m[f][i], m'[f][i]) {
      OpenMeans(m[f][i]);
    }
  }

  lemma {:induction false} TablePagesSame(m: Memory, m': Memory, pud: Word, n: nat)
    requires SameMemory(m, m')
    ensures TablePages(m', pud, false, n) == TablePages(m, pud, false, n)
  {
    hide Entry, Frame, PudLarge, SameMemory;
    forall i: Index
      ensures Frame(Entry(m', pud, i)) == Frame(Entry(m, pud, i))
      ensures Leads(Entry(m', pud, i), false) == Leads(Entry(m, pud, i), false)
    {
      SameEntries(m, m', pud, i);
    }
  }

  /** No sweep, however tables are shared, changes what later sweeps reach. */
  lemma {:induction false} PagesSame(m: Memory, m': Memory, root: Word, n: nat)
    requires SameMemory(m, m')
    ensures Pages(m', root, false, n) == Pages(m, root, false, n)
  {
    hide Entry, Frame, PudLarge, SameMemory, TablePages;
    forall i: Index
      ensures Frame(Entry(m', root, i)) == Frame(Entry(m, root, i))
      ensures TablePages(m', Frame(Entry(m, root, i)), false, ENTRIES) ==
          TablePages(m, Frame(Entry(m, root, i)), false, ENTRIES)
    {
      SameEntries(m, m', root, i);
      TablePagesSame(m, m', Frame(Entry(m, root, i)), ENTRIES);
    }
  }

  // ----- Closing -----

  /** The innermost loop of set_pgtable_prot4. */
  method ClosePmdPage(k: Machine, pmd: Word)
    requires pmd in k.mem
    modifies k`mem
    ensures k.mem == old(k.mem)[pmd := ClosePage(old(k.mem)[pmd], ENTRIES)]
  {
    hide Frame, Writable, ToggleRw;
    ghost var p := k.mem[pmd];
    assert ClosePage(p, 0) == p;
    for i3 := 0 to ENTRIES
      invariant k.mem == old(k.mem)[pmd := ClosePage(p, i3)]
    {
      var e := k.mem[pmd][i3];
      assert ClosePage(p, i3 + 1) == ClosePage(p, i3)[i3 := Close(e)];
      assert ClosePage(p, i3)[i3 := e] == ClosePage(p, i3);
      if Frame(e) == ZERO {
        continue;
      }
      if Writable(e) {
        k.SetEntry(pmd, i3, ToggleRw(e));
      }
    }
  }

  lemma ClosedStep(m: Memory, c: Memory, s: set<Word>, f: Word)
    requires Closed(m, c, s) && f in m
    ensures Closed(m, c[f := ClosePage(c[f], ENTRIES)], s + {f})
  {
  }

  method ClosePudPage(k: Machine, pud: Word, ghost m: Memory, ghost s: set<Word>)
    requires pud in k.mem && TablePages(m, pud, false, ENTRIES) <= m.Keys
    requires Closed(m, k.mem, s)
    modifies k`mem
    ensures Closed(m, k.mem, s + TablePages(m, pud, false, ENTRIES))
  {
    hide Entry, Frame, PudLarge, ClosePage, SameMemory;
    assert s + TablePages(m, pud, false, 0) == s;
    for i2 := 0 to ENTRIES
      invariant k.mem.Keys == m.Keys && Closed(m, k.mem, s + TablePages(m, pud, false, i2))
    {
      ghost var before := s + TablePages(m, pud, false, i2);
      ClosedSame(m, k.mem, before);
      SameEntries(m, k.mem, pud, i2);
      var e := Entry(k.mem, pud, i2);
      ghost var e0 := Entry(m, pud, i2);
      TablePagesStep(m, pud, false, i2);
      if Frame(e) == ZERO {
        continue;
      }
      if PudLarge(e) {
        continue;
      }
      ClosedStep(m, k.mem, before, Frame(e));
      ClosePmdPage(k, Frame(e));
      assert s + TablePages(m, pud, false, i2 + 1) == before + {Frame(e)};
    }
  }

  lemma TablePagesStep(m: Memory, pud: Word, open: bool, i: Index)
    ensures var e := Entry(m, pud, i);
            TablePages(m, pud, open, i + 1) ==
            TablePages(m, pud, open, i) + if Leads(e, open) then {Frame(e)} else {}
    ensures TablePages(m, pud, open, i + 1) <= TablePages(m, pud, open, ENTRIES)
  {
  }

  lemma PagesStep(m: Memory, root: Word, open: bool, i: Index)
    requires HALF <= i
    ensures var e := Entry(m, root, i);
            Pages(m, root, open, i + 1) ==
            Pages(m, root, open, i) + if IsInvalid(e) then {} else TablePages(m, Frame(e), open, ENTRIES)
    ensures Pages(m, root, open, i + 1) <= Pages(m, root, open, ENTRIES)
  {
  }

  /** Write-protects every PMD entry reached from the upper half of the root; exactly these
      entries change, in whatever way tables are shared. */
  method CloseUpperHalf(k: Machine, root: Word)
    requires InUse(k.mem, root)
    modifies k`mem
    ensures Closed(old(k.mem), k.mem, Pages(old(k.mem), root, false, ENTRIES))
  {
    hide Entry, Frame, TablePages, ClosePage, SameMemory, Close;
    ghost var m := k.mem;
    for i1 := HALF to ENTRIES
      invariant Closed(m, k.mem, Pages(m, root, false, i1))
    {
      ClosedSame(m, k.mem, Pages(m, root, false, i1));
      SameEntries(m, k.mem, root, i1);
      PagesStep(m, root, false, i1);
      var e := Entry(k.mem, root, i1);
      if Frame(e) == ZERO {
        continue;
      }
      ClosePudPage(k, Frame(e), m, Pages(m, root, false, i1));
    }
  }

  // ----- Opening -----

  /** The innermost loop of set_pgtable_prot5 and set_pgtable_prot6, which looks at the PUD entry
      afresh for every PMD entry; even if both are in one page, the first look decides. */
  method OpenPmdPage(k: Machine, pud: Word, i2: Index, pmd: Word)
    requires pmd in k.mem
    modifies k`mem
    ensures k.mem == if Writable(Entry(old(k.mem), pud, i2))
                     then old(k.mem)[pmd := OpenPage(old(k.mem)[pmd], ENTRIES)] else old(k.mem)
  {
    hide Frame, Writable, SetRw;
    ghost var m, p := k.mem, k.mem[pmd];
    ghost var w := Writable(Entry(m, pud, i2));
    assert OpenPage(p, 0) == p;
    for i3 := 0 to ENTRIES
      invariant k.mem == if w then m[pmd := OpenPage(p, i3)] else m
    {
      OpenMeans(p[i2]);
      assert Writable(Entry(k.mem, pud, i2)) == w;
      var e := k.mem[pmd][i3];
      assert OpenPage(p, i3 + 1) == OpenPage(p, i3)[i3 := Open(p[i3])];
      assert OpenPage(p, i3)[i3 := p[i3]] == OpenPage(p, i3);
      if Frame(e) == ZERO {
        continue;
      }
      if Writable(Entry(k.mem, pud, i2)) {
        k.SetEntry(pmd, i3, SetRw(e));
      }
    }
  }

  lemma {:induction false} OpenedStep(m: Memory, c: Memory, s: set<Word>, f: Word)
    requires Opened(m, c, s) && f in m
    ensures Opened(m, c[f := OpenPage(c[f], ENTRIES)], s + {f})
  {
    hide OpenPage;
    LastPageSweepShows(m[f]);
  }

  /** Opening leaves a page outside s alone, and makes every valid entry of a page in s writable. */
  lemma {:induction false} OpenedEntry(m: Memory, c: Memory, s: set<Word>, f: Word, i: Index)
    requires Opened(m, c, s)
    ensures f !in s ==> Entry(c, f, i) == Entry(m, f, i)
    ensures f in s && !IsInvalid(Entry(m, f, i)) ==> Writable(Entry(c, f, i))
    ensures Writable(Entry(m, f, i)) ==> Writable(Entry(c, f, i))
  {
    hide Open, Writable, Frame;
    ZeroInvalid();
    if f in m {
      OpenMeans(m[f][i]);
    }
  }

  lemma ZeroInvalid()
    ensures IsInvalid(ZERO)
  {
  }

  // The pages opened, in the order of the slots: a page is opened if the PUD entry that leads to
  // it is writable, or has become so because its own page was opened before.

  /** The pages opened once n slots of a PUD page are done, s being open before. */
  function Opening(m: Memory, pud: Word, s: set<Word>, n: nat): set<Word>
    requires n <= ENTRIES
  {
    if n == 0 then s
    else
      var s' := Opening(m, pud, s, n - 1);
      var e := Entry(m, pud, n - 1);
      if PudTable(e) && (Writable(e) || pud in s') then s' + {Frame(e)} else s'
  }

  /** The pages opened below slots 256..n of the root. */
  function OpenSet(m: Memory, root: Word, n: nat): set<Word>
    requires n <= ENTRIES
  {
    if n <= HALF then {}
    else
      var s := OpenSet(m, root, n - 1);
      var e := Entry(m, root, n - 1);
      if IsInvalid(e) then s else Opening(m, Frame(e), s, ENTRIES)
  }

  method OpenPudPage(k: Machine, pud: Word, ghost m: Memory, ghost s: set<Word>)
    requires pud in k.mem && TablePages(m, pud, false, ENTRIES) <= m.Keys
    requires Opened(m, k.mem, s)
    modifies k`mem
    ensures Opened(m, k.mem, Opening(m, pud, s, ENTRIES))
  {
    hide Entry, Frame, PudLarge, OpenPage, SameMemory, Writable;
    for i2 := 0 to ENTRIES
      invariant Opened(m, k.mem, Opening(m, pud, s, i2))
    {
      ghost var s' := Opening(m, pud, s, i2);
      OpenedSame(m, k.mem, s');
      SameEntries(m, k.mem, pud, i2);
      OpenedEntry(m, k.mem, s', pud, i2);
      TablePagesStep(m, pud, false, i2);
      var e := Entry(k.mem, pud, i2);
      if Frame(e) == ZERO {
        continue;
      }
      if PudLarge(e) {
        continue;
      }
      OpenedStep(m, k.mem, s', Frame(e));
      OpenPmdPage(k, pud, i2, Frame(e));
    }
  }

  /** Makes the PMD entries writable below each PUD entry that is writable when its turn comes.
      set_pgtable_prot5 and set_pgtable_prot6 are this one loop. */
  method OpenUpperHalf(k: Machine, root: Word)
    requires InUse(k.mem, root)
    modifies k`mem
    ensures Opened(old(k.mem), k.mem, OpenSet(old(k.mem), root, ENTRIES))
  {
    hide Entry, Frame, TablePages, OpenPage, SameMemory, Open, Opening;
    ghost var m := k.mem;
    for i1 := HALF to ENTRIES
      invariant Opened(m, k.mem, OpenSet(m, root, i1))
    {
      OpenedSame(m, k.mem, OpenSet(m, root, i1));
      SameEntries(m, k.mem, root, i1);
      PagesStep(m, root, false, i1);
      var e := Entry(k.mem, root, i1);
      if Frame(e) == ZERO {
        continue;
      }
      OpenPudPage(k, Frame(e), m, OpenSet(m, root, i1));
    }
  }
}
