/** Sixty-four bit page-table entries and the masks the module applies to them.
    Field positions are those of 4-level paging, section 4.5 of the Intel 64 and
    IA-32 Architectures Software Developer's Manual, volume 3A. */
module PageWords {

  /** A machine word: a table entry, or the physical address of a page. */
  datatype Word = Word(bits: bv64)

  const ZERO: Word := Word(0)

  /** Bits 12..47: the page an entry points at. */
  function Frame(e: Word): Word {
    Word(e.bits & 0xffff_ffff_f000)
  }

  /** Bits 0..11 and 58..63: what is carried over into a copied entry. */
  function Flags(e: Word): Word {
    Word(e.bits & 0xfc00_0000_0000_0fff)
  }

  /** The entry with the flags of e that points at page p. */
  function Retarget(p: Word, e: Word): Word {
    Word(p.bits | Flags(e).bits)
  }

  predicate IsInvalid(e: Word) {
    Frame(e) == ZERO
  }

  /** The present bit (bit 0), which decides for the processor. */
  predicate Present(e: Word) {
    e.bits & 0x1 == 0x1
  }

  /** A third-level entry that maps a 1 GB page: present (bit 0) and page-size (bit 7). */
  predicate PudLarge(e: Word) {
    e.bits & 0x81 == 0x81
  }

  /** A second-level entry that maps a 2 MB page: page-size (bit 7). */
  predicate PmdLarge(e: Word) {
    e.bits & 0x80 != 0
  }

  /** The entry points at a table of PMD entries. */
  predicate PudTable(e: Word) {
    !IsInvalid(e) && !PudLarge(e)
  }

  /** The entry points at a table of PTEs. */
  predicate PmdTable(e: Word) {
    !IsInvalid(e) && !PmdLarge(e)
  }

  /** The address of a page: nonzero, and nothing outside bits 12..47. */
  predicate IsFrame(p: Word) {
    p != ZERO && Frame(p) == p
  }

  // ----- Bit by bit -----

  /** Bit i of an entry. */
  predicate Bit(e: Word, i: bv64)
    requires i < 64
  {
    (e.bits >> i) & 1 == 1
  }

  lemma FrameBits(e: Word, i: bv64)
    requires i < 64
    ensures Bit(Frame(e), i) <==> 12 <= i < 48 && Bit(e, i)
  {
  }

  /** An entry points at nothing if none of the bits of its page frame is set. */
  lemma {:induction false} InvalidBits(e: Word)
    ensures IsInvalid(e) <==> forall i: bv64 :: 12 <= i < 48 ==> !Bit(e, i)
  {
    if !IsInvalid(e) {
      var i := SomeBit(Frame(e));
      FrameBits(e, i);
    }
  }

  lemma SomeBit(e: Word) returns (i: bv64)
    requires e != ZERO
    ensures i < 64 && Bit(e, i)
  {
    i := 0;
    while i < 63 && !Bit(e, i)
      invariant i < 64 && e.bits >> i != 0
      decreases 63 - i
    {
      i := i + 1;
    }
  }

  /** Which bits decide on presence, on the size of a page and on writing: section 4.5. */
  lemma KindBits(e: Word)
    ensures Present(e) <==> Bit(e, 0)
    ensures Writable(e) <==> Bit(e, 1)
    ensures PudLarge(e) <==> Bit(e, 0) && Bit(e, 7)
    ensures PmdLarge(e) <==> Bit(e, 7)
  {
  }

  // The four fields of a copied entry.

  lemma RetargetLowBit(p: Word, e: Word, i: bv64)
    requires IsFrame(p) && i < 12
    ensures Bit(Retarget(p, e), i) <==> Bit(e, i)
  {
  }

  lemma OrClear(p: Word, f: Word, i: bv64)
    requires i < 64 && !Bit(f, i)
    ensures Bit(Word(p.bits | f.bits), i) <==> Bit(p, i)
  {
  }

  lemma NoFlag(e: Word, i: bv64)
    requires 12 <= i < 48
    ensures !Bit(Flags(e), i)
  {
  }

  lemma RetargetFrameBit(p: Word, e: Word, i: bv64)
    requires 12 <= i < 48
    ensures Bit(Retarget(p, e), i) <==> Bit(p, i)
  {
    hide Bit, Flags;
    NoFlag(e, i);
    OrClear(p, Flags(e), i);
  }

  lemma RetargetClearBit(p: Word, e: Word, i: bv64)
    requires IsFrame(p) && 48 <= i < 58
    ensures !Bit(Retarget(p, e), i)
  {
  }

  lemma RetargetHighBit(p: Word, e: Word, i: bv64)
    requires IsFrame(p) && 58 <= i < 64
    ensures Bit(Retarget(p, e), i) <==> Bit(e, i)
  {
  }

  /** The copied entry has its frame from the new page, and the twelve low bits and the six high ones
      from the old entry; the ten between are clear. */
  lemma RetargetBits(p: Word, e: Word, i: bv64)
    requires IsFrame(p) && i < 64
    ensures Bit(Retarget(p, e), i) <==> if 12 <= i < 48 then Bit(p, i) else (i < 12 || 58 <= i) && Bit(e, i)
  {
    hide Bit, Retarget, IsFrame;
    if i < 12 {
      RetargetLowBit(p, e, i);
    } else if i < 48 {
      RetargetFrameBit(p, e, i);
    } else if i < 58 {
      RetargetClearBit(p, e, i);
    } else {
      RetargetHighBit(p, e, i);
    }
  }

  lemma SetRwBit(e: Word, i: bv64)
    requires i < 64 && i != 1
    ensures Bit(SetRw(e), 1) && (Bit(SetRw(e), i) <==> Bit(e, i))
  {
  }

  lemma ToggleRwBit(e: Word, i: bv64)
    requires i < 64 && i != 1
    ensures Bit(ToggleRw(e), i) <==> Bit(e, i)
  {
  }

  lemma ToggleRwItself(e: Word)
    ensures Bit(ToggleRw(e), 1) <==> !Bit(e, 1)
  {
  }

  /** Setting and flipping the writable bit leave every other bit alone. */
  lemma WritableBits(e: Word, i: bv64)
    requires i < 64
    ensures Bit(SetRw(e), i) <==> i == 1 || Bit(e, i)
    ensures Bit(ToggleRw(e), i) <==> if i == 1 then !Bit(e, 1) else Bit(e, i)
  {
    hide Bit, SetRw, ToggleRw;
    if i == 1 {
      SetRwBit(e, 0);
      ToggleRwItself(e);
    } else {
      SetRwBit(e, i);
      ToggleRwBit(e, i);
    }
  }

  // Rewriting an entry to point at a new page moves the frame and keeps everything else.

  lemma RetargetFrame(p: Word, e: Word)
    requires IsFrame(p)
    ensures Frame(Retarget(p, e)) == p
  {
  }

  lemma RetargetFlags(p: Word, e: Word)
    requires IsFrame(p)
    ensures Flags(Retarget(p, e)) == Flags(e)
    ensures Retarget(p, e).bits & 0xfc00_0000_0000_0fff == e.bits & 0xfc00_0000_0000_0fff
  {
  }

  lemma RetargetPudKind(p: Word, e: Word)
    requires IsFrame(p)
    ensures PudLarge(Retarget(p, e)) == PudLarge(e)
  {
  }

  lemma RetargetPmdKind(p: Word, e: Word)
    requires IsFrame(p)
    ensures PmdLarge(Retarget(p, e)) == PmdLarge(e)
  {
  }

  // ----- The writable bit -----

  function SetRw(e: Word): Word {
    Word(e.bits | 0x2)
  }

  function ToggleRw(e: Word): Word {
    Word(e.bits ^ 0x2)
  }

  predicate Writable(e: Word) {
    e.bits & 0x2 == 0x2
  }

  /** The two entries agree on every bit but, perhaps, the writable one. */
  predicate SameButRw(e: Word, e': Word) {
    e' == e || e' == ToggleRw(e)
  }

  lemma ToggleRwTwice(e: Word)
    ensures ToggleRw(ToggleRw(e)) == e
  {
  }

  lemma ToggleRwFlips(e: Word)
    ensures Writable(ToggleRw(e)) == !Writable(e)
  {
  }

  // Setting the bit leaves a writable entry alone and flips another.

  lemma SetRwKeeps(e: Word)
    requires Writable(e)
    ensures SetRw(e) == e
  {
  }

  lemma SetRwFlips(e: Word)
    requires !Writable(e)
    ensures SetRw(e) == ToggleRw(e)
  {
  }

  // Flipping the bit changes neither the page pointed at nor the kind of the entry, and of the
  // flags only this one.

  lemma ToggleRwFrame(e: Word)
    ensures Frame(ToggleRw(e)) == Frame(e)
  {
  }

  lemma ToggleRwFlags(e: Word)
    ensures Flags(ToggleRw(e)) == ToggleRw(Flags(e))
  {
  }

  lemma ToggleRwKind(e: Word)
    ensures PudLarge(ToggleRw(e)) == PudLarge(e)
  {
  }

  lemma ToggleRwPmdKind(e: Word)
    ensures PmdLarge(ToggleRw(e)) == PmdLarge(e)
  {
  }

  lemma FlagsWritable(e: Word)
    ensures Writable(Flags(e)) == Writable(e)
  {
  }

  lemma SetRwSame(e: Word)
    ensures SameButRw(e, SetRw(e))
  {
  }

  lemma {:induction false} SameButRwTrans(e: Word, e': Word, e'': Word)
    requires SameButRw(e, e') && SameButRw(e', e'')
    ensures SameButRw(e, e'')
  {
    hide ToggleRw;
    ToggleRwTwice(e);
  }

  lemma {:induction false} SameButRwMeans(e: Word, e': Word)
    requires SameButRw(e, e')
    ensures Frame(e) == Frame(e') && SameButRw(Flags(e), Flags(e'))
    ensures PudLarge(e) == PudLarge(e') && PmdLarge(e) == PmdLarge(e')
  {
    hide Frame, Flags, PudLarge, PmdLarge, ToggleRw;
    ToggleRwFrame(e);
    ToggleRwFlags(e);
    ToggleRwKind(e);
    ToggleRwPmdKind(e);
  }
}
