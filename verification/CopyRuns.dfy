/** Whole runs of a copied root: refills of either half, mixed with stores to the pages of
    the rest of the system in any order. */
module CopyRuns {
  import opened PageWords
  import opened PageTables
  import opened CopyRelation
  import opened CopyTheorems

  /** The root and the memory a half of the copy was last filled from, if it ever was. */
  datatype Origin = Never | From(root: Word, m: Memory)

  /** Memory, the pages that belong to the copy, and where its two halves came from. */
  datatype State = State(mem: Memory, own: set<Word>, upper: Origin, lower: Origin)

  /** A fill reads the root in use anew. */
  datatype Event =
    | FillUpper(root: Word, after: Memory)
    | FillLower(root: Word, after: Memory)
    | Write(stores: seq<Store>)

  /** The event can happen: a fill does what the copying loops do, and the rest of the system
      stores neither into the root of the copy nor into its tables. */
  ghost predicate Enabled(v: Version, st: State, ev: Event, copy: Word) {
    match ev
    case FillUpper(root, m) => RangeCopied(v, st.mem, m, root, copy, ENTRIES / 2, ENTRIES)
    case FillLower(root, m) => RangeCopied(v, st.mem, m, root, copy, 0, ENTRIES / 2)
    case Write(ws) => forall i :: 0 <= i < |ws| ==> ws[i].page !in st.own && ws[i].page != copy
  }

  function After(st: State, ev: Event): State {
    match ev
    case FillUpper(root, m) => st.(mem := m, own := st.own + (m.Keys - st.mem.Keys), upper := From(root, st.mem))
    case FillLower(root, m) => st.(mem := m, own := st.own + (m.Keys - st.mem.Keys), lower := From(root, st.mem))
    case Write(ws) => st.(mem := AfterStores(st.mem, ws))
  }

  ghost predicate ValidRun(v: Version, st: State, evs: seq<Event>, copy: Word)
    decreases |evs|
  {
    evs == [] || (Enabled(v, st, evs[0], copy) && ValidRun(v, After(st, evs[0]), evs[1..], copy))
  }

  function Final(st: State, evs: seq<Event>): State
    decreases |evs|
  {
    if evs == [] then st else Final(After(st, evs[0]), evs[1..])
  }

  /** What address a means in the tree a half was filled from. */
  function Meaning(v: Version, o: Origin, a: Address): Translation {
    if o.Never? then Fault(4) else Walk(o.m, o.root, Redirect(v, o.m, o.root, a))
  }

  /** The copy has its own tables, and each half means what the old tree meant when that half
      was last filled. */
  ghost predicate UpToDate(v: Version, st: State, copy: Word) {
    && copy !in st.own && copy in st.mem && TreeIn(st.mem, st.own, copy, 0, ENTRIES)
    && forall a: Address ::
         Walk(st.mem, copy, a) == Meaning(v, if a.pgd < ENTRIES / 2 then st.lower else st.upper, a)
  }

  lemma {:induction false} FillKeeps(v: Version, st: State, ev: Event, copy: Word, lo: nat, hi: nat)
    requires (ev.FillUpper? && lo == ENTRIES / 2 && hi == ENTRIES) || (ev.FillLower? && lo == 0 && hi == ENTRIES / 2)
    requires UpToDate(v, st, copy) && Enabled(v, st, ev, copy)
    ensures UpToDate(v, After(st, ev), copy)
  {
    var root, m, st' := ev.root, ev.after, After(st, ev);
    CopyTranslates(v, st.mem, m, root, copy, lo, hi);
    forall i: Index ensures PgdEntryIn(m, st'.own, m[copy][i]) {
      if lo <= i < hi {
        PgdEntryGrow(m, m.Keys - st.mem.Keys, st'.own, m[copy][i]);
      } else {
        PgdEntryKept(st.mem, m, st.own, m[copy][i]);
        PgdEntryGrow(m, st.own, st'.own, m[copy][i]);
      }
    }
    forall a: Address | !(lo <= a.pgd < hi) ensures Walk(m, copy, a) == Walk(st.mem, copy, a) {
      OtherHalfUndisturbed(v, st.mem, m, st.own, root, copy, lo, hi, a);
    }
  }

  lemma {:induction false} WriteKeeps(v: Version, st: State, ws: seq<Store>, copy: Word)
    requires UpToDate(v, st, copy) && Enabled(v, st, Write(ws), copy)
    ensures UpToDate(v, After(st, Write(ws)), copy)
  {
    var m := AfterStores(st.mem, ws);
    StoresKeep(st.mem, ws, st.own + {copy});
    forall i: Index
      ensures PgdEntryIn(m, st.own, m[copy][i])
      ensures forall i2: Index, i3: Index, i4: Index ::
        WalkPgd(m, m[copy][i], i2, i3, i4) == WalkPgd(st.mem, st.mem[copy][i], i2, i3, i4)
    {
      PgdEntryKept(st.mem, m, st.own, st.mem[copy][i]);
    }
    forall a: Address ensures Walk(m, copy, a) == Walk(st.mem, copy, a) {
      assert Entry(m, copy, a.pgd) == Entry(st.mem, copy, a.pgd);
    }
  }

  /** After any run, each half of the copy means what the old tree meant when that half was
      last filled, whatever has been stored in the old tree since. */
  lemma {:induction false} RunKeepsUpToDate(v: Version, st: State, evs: seq<Event>, copy: Word)
    requires UpToDate(v, st, copy) && ValidRun(v, st, evs, copy)
    ensures UpToDate(v, Final(st, evs), copy)
    decreases |evs|
  {
    if evs != [] {
      match evs[0] {
        case FillUpper(_, _) => FillKeeps(v, st, evs[0], copy, ENTRIES / 2, ENTRIES);
        case FillLower(_, _) => FillKeeps(v, st, evs[0], copy, 0, ENTRIES / 2);
        case Write(ws) => WriteKeeps(v, st, ws, copy);
      }
      RunKeepsUpToDate(v, After(st, evs[0]), evs[1..], copy);
    }
  }

  /** A root as copy_pagetable leaves it is a good start for such a run. */
  lemma {:induction false} FreshCopyIsUpToDate(v: Version, m0: Memory, m: Memory, root: Word, copy: Word)
    requires copy !in m0
    requires RangeCopied(v, m0[copy := ZeroPage()], m, root, copy, ENTRIES / 2, ENTRIES)
    ensures UpToDate(v, State(m, m.Keys - m0.Keys - {copy}, From(root, m0[copy := ZeroPage()]), Never), copy)
  {
    var m1 := m0[copy := ZeroPage()];
    CopyTranslates(v, m1, m, root, copy, ENTRIES / 2, ENTRIES);
    assert m.Keys - m1.Keys == m.Keys - m0.Keys - {copy};
    forall a: Address | a.pgd < ENTRIES / 2 ensures Walk(m, copy, a) == Fault(4) {
      assert m[copy][a.pgd] == ZERO;
    }
  }
}
