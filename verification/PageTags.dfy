/** The physical page tag table: who owns each page frame and how it is used, driven by the
    events of memory management. */
module PageTags {
  import opened Wrappers

  /** The number of tagged frames; frame pfn has slot pfn - 1. */
  const NUM_PFN: nat := 0x31fe00

  datatype Tag = Tag(owner: nat, flag: bv8)

  const USED: bv8 := 0x80
  const MERGED: bv8 := 0x08
  const SHARED: bv8 := 0x01

  type Table = t: seq<Tag> | |t| == NUM_PFN witness seq(NUM_PFN, _ => Tag(0, 0))

  function ZeroTable(): Table {
    seq(NUM_PFN, _ => Tag(0, 0))
  }

  /** What happens to page frames.  The last field says whether the page the event ends at is
      one of the merged pages of the kernel. */
  datatype Event =
    | Verify(pfn: nat, ksm: bool)
    | Map(pfn: nat, vmid: nat, ksm: bool)
    | Merge(pfn: nat, kpfn: nat, ksm: bool)
    | Clean(pfn: nat)
    | Inflate(pfn: nat)
    | Deflate(pfn: nat)

  predicate Frame(pfn: nat) {
    0 < pfn <= NUM_PFN
  }

  /** Where a handler indexes the table without a check, the frame must have a slot. */
  predicate Sound(ev: Event) {
    match ev
    case Verify(_, _) => true
    case Map(_, _, _) => true
    case Merge(pfn, kpfn, _) => pfn > 0 && kpfn > 0
    case Clean(pfn) => Frame(pfn)
    case Inflate(pfn) => Frame(pfn)
    case Deflate(pfn) => Frame(pfn)
  }

  function At(t: Table, pfn: nat): Tag
    requires Frame(pfn)
  {
    t[pfn - 1]
  }

  function Put(t: Table, pfn: nat, tag: Tag): Table
    requires Frame(pfn)
  {
    t[pfn - 1 := tag]
  }

  function ShareIf(flag: bv8, ksm: bool): bv8 {
    if ksm then flag | SHARED else flag
  }

  /** A merge takes effect if both frames are below the last one and the first has an owner. */
  predicate Effective(t: Table, ev: Event)
    requires Sound(ev)
  {
    ev.Merge? && ev.pfn < NUM_PFN && ev.kpfn < NUM_PFN && At(t, ev.pfn).owner != 0
  }

  function Apply(t: Table, ev: Event): Table
    requires Sound(ev)
  {
    match ev
    case Verify(pfn, ksm) =>
      if Frame(pfn) then Put(t, pfn, At(t, pfn).(flag := ShareIf(At(t, pfn).flag, ksm))) else t
    case Map(pfn, vmid, ksm) =>
      if Frame(pfn) then Put(t, pfn, Tag(vmid, ShareIf(At(t, pfn).flag | USED, ksm))) else t
    case Merge(pfn, kpfn, ksm) =>
      if !Effective(t, ev) then t
      else
        var t' := if ksm then Put(t, kpfn, Tag(At(t, pfn).owner, At(t, kpfn).flag | SHARED | MERGED)) else t;
        Put(t', pfn, Tag(0, 0))
    case Clean(pfn) => Put(t, pfn, Tag(0, 0))
    case Inflate(pfn) => Put(t, pfn, At(t, pfn).(owner := 0))
    case Deflate(pfn) => Put(t, pfn, At(t, pfn).(owner := 0))
  }

  predicate AllSound(evs: seq<Event>) {
    forall i :: 0 <= i < |evs| ==> Sound(evs[i])
  }

  /** The table after a run from the table as the module starts with it. */
  function Run(evs: seq<Event>): Table
    requires AllSound(evs)
  {
    if evs == [] then ZeroTable() else Apply(Run(Before(evs)), Latest(evs))
  }

  function Latest(evs: seq<Event>): Event
    requires evs != []
  {
    evs[|evs| - 1]
  }

  function Before(evs: seq<Event>): seq<Event>
    requires evs != []
  {
    evs[..|evs| - 1]
  }

  // ----- The handlers -----

  class TagTable {
    var pageflag: array<Tag>

    ghost predicate Valid()
      reads this
    {
      pageflag.Length == NUM_PFN
    }

    ghost function Contents(): Table
      reads this, pageflag
      requires Valid()
    {
      pageflag[..]
    }

    constructor ()
      ensures Valid() && Contents() == ZeroTable() && fresh(pageflag)
    {
      pageflag := new Tag[NUM_PFN](_ => Tag(0, 0));
    }

    /** Looks a frame up before use; whatever the tag says, the answer is zero. */
    method HandlePfnModify(pfn: nat, vmid: nat, ksm: bool) returns (r: nat)
      requires Valid()
      modifies pageflag
      ensures Valid() && Contents() == Apply(old(Contents()), Verify(pfn, ksm)) && r == 0
    {
      if pfn > 0 && pfn <= NUM_PFN {
        if ksm {
          pageflag[pfn - 1] := pageflag[pfn - 1].(flag := pageflag[pfn - 1].flag | SHARED);
        }
        var used := pageflag[pfn - 1].flag & USED;
        var shared := pageflag[pfn - 1].flag & SHARED;
        var ownerpfn := pageflag[pfn - 1].owner;
        if used == 0 {
          return 0;
        } else if shared != 0 {
          return 0;
        } else if ownerpfn != vmid {
          return 0;
        } else {
          return 0;
        }
      }
      r := 0;
    }

    method HandlePfnMap(pfn: nat, vmid: nat, ksm: bool)
      requires Valid()
      modifies pageflag
      ensures Valid() && Contents() == Apply(old(Contents()), Map(pfn, vmid, ksm))
    {
      if pfn > 0 && pfn <= NUM_PFN {
        pageflag[pfn - 1] := pageflag[pfn - 1].(owner := vmid);
        pageflag[pfn - 1] := pageflag[pfn - 1].(flag := pageflag[pfn - 1].flag | USED);
        if ksm {
          pageflag[pfn - 1] := pageflag[pfn - 1].(flag := pageflag[pfn - 1].flag | SHARED);
        }
      }
    }

    method KsmPageModify(pfn: nat, kpfn: nat, ksm: bool)
      requires Valid() && pfn > 0 && kpfn > 0
      modifies pageflag
      ensures Valid() && Contents() == Apply(old(Contents()), Merge(pfn, kpfn, ksm))
    {
      if kpfn < NUM_PFN && pfn < NUM_PFN {
        if pageflag[pfn - 1].owner == 0 {
          return;
        }
        if ksm {
          pageflag[kpfn - 1] := pageflag[kpfn - 1].(owner := pageflag[pfn - 1].owner);
          pageflag[kpfn - 1] := pageflag[kpfn - 1].(flag := pageflag[kpfn - 1].flag | SHARED);
          pageflag[kpfn - 1] := pageflag[kpfn - 1].(flag := pageflag[kpfn - 1].flag | MERGED);
        }
        pageflag[pfn - 1] := pageflag[pfn - 1].(owner := 0);
        pageflag[pfn - 1] := pageflag[pfn - 1].(flag := pageflag[pfn - 1].flag & 0);
      }
    }

    method CleanPageModify(pfn: nat)
      requires Valid() && Frame(pfn)
      modifies pageflag
      ensures Valid() && Contents() == Apply(old(Contents()), Clean(pfn))
    {
      pageflag[pfn - 1] := pageflag[pfn - 1].(flag := 0);
      pageflag[pfn - 1] := pageflag[pfn - 1].(owner := 0);
    }

    method InflatePageModify(pfn: nat)
      requires Valid() && Frame(pfn)
      modifies pageflag
      ensures Valid() && Contents() == Apply(old(Contents()), Inflate(pfn))
    {
      pageflag[pfn - 1] := pageflag[pfn - 1].(owner := 0);
    }

    method DeflatePageModify(pfn: nat)
      requires Valid() && Frame(pfn)
      modifies pageflag
      ensures Valid() && Contents() == Apply(old(Contents()), Deflate(pfn))
    {
      pageflag[pfn - 1] := pageflag[pfn - 1].(owner := 0);
    }
  }

  // ----- The table is determined by its history -----

  predicate Used(tag: Tag) {
    tag.flag & USED != 0
  }

  /** The event decides whether frame p is used: it maps it, cleans it, or merges it away. */
  predicate Decides(t: Table, ev: Event, p: nat)
    requires Sound(ev) && Frame(p)
  {
    ev.pfn == p && (ev.Map? || ev.Clean? || Effective(t, ev))
  }

  /** The latest event of the run that decided about frame p. */
  function LatestDecision(evs: seq<Event>, p: nat): Option<Event>
    requires AllSound(evs) && Frame(p)
  {
    if evs == [] then None
    else if Decides(Run(Before(evs)), Latest(evs), p) then Some(Latest(evs))
    else LatestDecision(Before(evs), p)
  }

  lemma UsedStep(t: Table, ev: Event, p: nat)
    requires Sound(ev) && Frame(p)
    ensures Used(At(Apply(t, ev), p)) <==> if Decides(t, ev, p) then ev.Map? else Used(At(t, p))
  {
  }

  /** A frame is marked used exactly when the latest event that decided about it mapped it. */
  lemma {:induction false} UsedByHistory(evs: seq<Event>, p: nat)
    requires AllSound(evs) && Frame(p)
    ensures Used(At(Run(evs), p)) <==> LatestDecision(evs, p).Some? && LatestDecision(evs, p).value.Map?
  {
    if evs != [] {
      UsedByHistory(Before(evs), p);
      UsedStep(Run(Before(evs)), Latest(evs), p);
    }
  }

  // ----- Frame by frame -----

  /** A merge of a frame with an owner, both frames below the last one, leaves nothing of it, and if the
      page is a merged page of the kernel, gives its owner to the other frame and marks that one. */
  lemma MergeAt(t: Table, pfn: nat, kpfn: nat, ksm: bool, q: nat)
    requires pfn > 0 && kpfn > 0 && 0 < q <= 0x31fe00
    ensures Apply(t, Merge(pfn, kpfn, ksm))[q - 1] ==
      if 0x31fe00 <= pfn || 0x31fe00 <= kpfn || t[pfn - 1].owner == 0 then t[q - 1]
      else if q == pfn then Tag(0, 0)
      else if q == kpfn && ksm then Tag(t[pfn - 1].owner, t[q - 1].flag | 0x09)
      else t[q - 1]
  {
  }

  /** The other events touch their own frame only, if the table has it. */
  lemma EventAt(t: Table, ev: Event, q: nat)
    requires Sound(ev) && !ev.Merge? && 0 < q <= 0x31fe00
    ensures var tag := t[q - 1];
      Apply(t, ev)[q - 1] ==
      if ev.pfn != q then tag
      else match ev
           case Verify(_, ksm) => Tag(tag.owner, if ksm then tag.flag | 0x01 else tag.flag)
           case Map(_, vmid, ksm) => Tag(vmid, tag.flag | if ksm then 0x81 else 0x80)
           case Clean(_) => Tag(0, 0)
           case _ => Tag(0, tag.flag)
  {
  }

  // ----- The shared flags by history -----

  /** The event marks frame p as shared: it is seen, mapped or merged into as a merged page of the kernel. */
  predicate MarksShared(t: Table, ev: Event, p: nat)
    requires Sound(ev) && Frame(p)
  {
    match ev
    case Verify(pfn, ksm) => pfn == p && ksm
    case Map(pfn, _, ksm) => pfn == p && ksm
    case Merge(pfn, kpfn, ksm) => Effective(t, ev) && kpfn == p && pfn != p && ksm
    case _ => false
  }

  /** The event wipes the flags of frame p: it is cleaned or merged away. */
  predicate Wipes(t: Table, ev: Event, p: nat)
    requires Sound(ev) && Frame(p)
  {
    ev.pfn == p && (ev.Clean? || Effective(t, ev))
  }

  /** Whether frame p has been marked by an event since it was last wiped; merges only, or all events that
      mark. */
  predicate MarkedSince(evs: seq<Event>, p: nat, merges: bool)
    requires AllSound(evs) && Frame(p)
  {
    evs != [] && !Wipes(Run(Before(evs)), Latest(evs), p) &&
    ((MarksShared(Run(Before(evs)), Latest(evs), p) && (merges ==> Latest(evs).Merge?)) ||
     MarkedSince(Before(evs), p, merges))
  }

  lemma FlagStep(t: Table, ev: Event, p: nat)
    requires Sound(ev) && Frame(p)
    ensures At(Apply(t, ev), p).flag & 0x01 != 0 <==>
            !Wipes(t, ev, p) && (MarksShared(t, ev, p) || At(t, p).flag & 0x01 != 0)
    ensures At(Apply(t, ev), p).flag & 0x08 != 0 <==>
            !Wipes(t, ev, p) && ((ev.Merge? && MarksShared(t, ev, p)) || At(t, p).flag & 0x08 != 0)
  {
  }

  /** A frame has the shared flag exactly if some event has marked it since it was last cleaned or merged
      away, and the merged flag exactly if a merge has. */
  lemma {:induction false} SharedByHistory(evs: seq<Event>, p: nat)
    requires AllSound(evs) && Frame(p)
    ensures At(Run(evs), p).flag & 0x01 != 0 <==> MarkedSince(evs, p, false)
    ensures At(Run(evs), p).flag & 0x08 != 0 <==> MarkedSince(evs, p, true)
  {
    if evs != [] {
      hide Apply, MarksShared, Wipes;
      SharedByHistory(Before(evs), p);
      FlagStep(Run(Before(evs)), Latest(evs), p);
    }
  }

  // ----- Owners by history -----

  /** Which event gave frame p its owner: the mapping, followed back through the merges that
      moved ownership here. */
  function Origin(evs: seq<Event>, p: nat): Option<nat>
    requires AllSound(evs) && Frame(p)
  {
    if evs == [] then None
    else
      var ev, before := Latest(evs), Before(evs);
      match ev
      case Verify(_, _) => Origin(before, p)
      case Map(pfn, _, _) => if pfn == p then Some(|before|) else Origin(before, p)
      case Merge(pfn, kpfn, ksm) =>
        if !Effective(Run(before), ev) then Origin(before, p)
        else if pfn == p then None
        else if kpfn == p && ksm then Origin(before, pfn)
        else Origin(before, p)
      case Clean(pfn) => if pfn == p then None else Origin(before, p)
      case Inflate(pfn) => if pfn == p then None else Origin(before, p)
      case Deflate(pfn) => if pfn == p then None else Origin(before, p)
  }

  /** The frame mapped by event i is, after the whole run, frame p: each later event leaves it
      alone or merges it into another frame. */
  ghost predicate Flows(evs: seq<Event>, i: nat, p: nat)
    requires AllSound(evs) && Frame(p)
  {
    && i < |evs|
    && if i == |evs| - 1 then Latest(evs).Map? && Latest(evs).pfn == p
       else
         var ev, before := Latest(evs), Before(evs);
         if Effective(Run(before), ev) && ev.kpfn == p && ev.ksm then
           ev.pfn != p && Flows(before, i, ev.pfn)
         else
           !(ev.pfn == p && !ev.Verify? && (ev.Merge? ==> Effective(Run(before), ev))) && Flows(before, i, p)
  }

  /** The owner of a frame is the machine of the mapping it came from, if it came from one;
      otherwise it has none. */
  lemma {:induction false} OwnerByHistory(evs: seq<Event>, p: nat)
    requires AllSound(evs) && Frame(p)
    ensures var o := Origin(evs, p);
            if o.None? then At(Run(evs), p).owner == 0
            else Flows(evs, o.value, p) && evs[o.value].Map? && At(Run(evs), p).owner == evs[o.value].vmid
  {
    if evs != [] {
      var ev, before := Latest(evs), Before(evs);
      OwnerByHistory(before, p);
      if Effective(Run(before), ev) {
        OwnerByHistory(before, ev.pfn);
      }
    }
  }

  // ----- What every run keeps -----

  /** Only the three flags are ever set, and merged pages are shared. */
  predicate FlagsOk(flag: bv8) {
    flag & 0x76 == 0 && (flag & MERGED != 0 ==> flag & SHARED != 0)
  }

  lemma FlagsKept(flag: bv8, ksm: bool)
    requires FlagsOk(flag)
    ensures FlagsOk(ShareIf(flag, ksm)) && FlagsOk(ShareIf(flag | USED, ksm)) && FlagsOk(flag | SHARED | MERGED)
  {
  }

  lemma {:induction false} FlagsInvariant(evs: seq<Event>, p: nat)
    requires AllSound(evs) && Frame(p)
    ensures FlagsOk(At(Run(evs), p).flag)
  {
    if evs != [] {
      hide FlagsOk, ShareIf;
      var before := Before(evs);
      FlagsInvariant(before, p);
      FlagsKept(At(Run(before), p).flag, true);
      FlagsKept(At(Run(before), p).flag, false);
      NoFlags();
    } else {
      NoFlags();
    }
  }

  lemma NoFlags()
    ensures FlagsOk(0)
  {
  }

  function Owned(t: Table): set<nat> {
    set p: nat | p <= NUM_PFN && Frame(p) && At(t, p).owner != 0
  }

  lemma {:induction false} CardinalityOfSubset(a: set<nat>, b: set<nat>)
    requires a <= b
    ensures |a| <= |b|
  {
    assert b == a + (b - a);
  }

  /** A mapping adds at most one owned frame; no other event adds any, not even a merge onto
      the same frame or onto a frame that has an owner. */
  lemma {:induction false} OwnershipConserved(t: Table, ev: Event)
    requires Sound(ev)
    ensures |Owned(Apply(t, ev))| <= |Owned(t)| + if ev.Map? then 1 else 0
  {
    var a, b := Owned(t), Owned(Apply(t, ev));
    if ev.Map? {
      CardinalityOfSubset(b, a + {ev.pfn});
    } else if Effective(t, ev) {
      assert ev.pfn in a && ev.pfn !in b;
      CardinalityOfSubset(b, a - {ev.pfn} + {ev.kpfn});
      if ev.pfn == ev.kpfn {
        CardinalityOfSubset(b, a - {ev.pfn});
      }
    } else {
      CardinalityOfSubset(b, a);
    }
  }

  function Maps(evs: seq<Event>): nat {
    if evs == [] then 0 else Maps(Before(evs)) + if Latest(evs).Map? then 1 else 0
  }

  /** Never more frames are owned than mappings were made. */
  lemma {:induction false} OwnedBounded(evs: seq<Event>)
    requires AllSound(evs)
    ensures |Owned(Run(evs))| <= Maps(evs)
  {
    if evs == [] {
      assert Owned(ZeroTable()) == {};
    } else {
      OwnedBounded(Before(evs));
      OwnershipConserved(Run(Before(evs)), Latest(evs));
    }
  }

  /** A frame with an owner was mapped, or other frames were merged into it. */
  lemma {:induction false} OwnedIsUsedOrMerged(evs: seq<Event>, p: nat)
    requires AllSound(evs) && Frame(p)
    ensures var tag := At(Run(evs), p); tag.owner != 0 ==> Used(tag) || tag.flag & MERGED != 0
  {
    if evs != [] {
      OwnedIsUsedOrMerged(Before(evs), p);
    }
  }

  /** A merge does not carry the used flag over: the frame merged into has an owner and is
      shared, but it is not marked used. */
  lemma {:induction false} MergedButNotUsed(vmid: nat)
    requires vmid != 0
    ensures var tag := At(Run([Map(1, vmid, false), Merge(1, 2, true)]), 2);
            tag.owner == vmid && !Used(tag) && tag.flag & SHARED != 0
  {
    var evs := [Map(1, vmid, false), Merge(1, 2, true)];
    var t := Apply(ZeroTable(), Map(1, vmid, false));
    assert Before(evs) == [Map(1, vmid, false)] && Before(Before(evs)) == [];
    assert Run(Before(Before(evs))) == ZeroTable();
    assert Run(Before(evs)) == t && Run(evs) == Apply(t, Merge(1, 2, true));
    assert At(t, 1) == Tag(vmid, 0x80) && At(t, 2) == Tag(0, 0);
  }
}
