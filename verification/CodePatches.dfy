/** Code memory in which functions are redirected by overwriting their first bytes, and put back
    from the bytes saved. */
module CodePatches {
  import opened Types
  import opened Wrappers

  // ----- The stub -----

  /** The low bytes of a number, lowest first. */
  function Bytes(n: nat, k: nat): (bs: seq<Byte>)
    ensures |bs| == k
  {
    if k == 0 then [] else [n % 256] + Bytes(n / 256, k - 1)
  }

  function Value(bs: seq<Byte>): nat {
    if bs == [] then 0 else bs[0] + 256 * Value(bs[1..])
  }

  function Limit(k: nat): nat {
    if k == 0 then 1 else 256 * Limit(k - 1)
  }

  lemma {:induction false} ValueBytes(n: nat, k: nat)
    requires n < Limit(k)
    ensures Value(Bytes(n, k)) == n
  {
    if k > 0 {
      ValueBytes(n / 256, k - 1);
    }
  }

  lemma {:induction false} LimitPositive(k: nat)
    ensures Limit(k) > 0
  {
    if k > 0 {
      LimitPositive(k - 1);
    }
  }

  const STUB_SIZE: nat := 12

  /** Load a 64-bit constant into RAX, and jump to the address in RAX. */
  function Stub(dest: nat): (s: seq<Byte>)
    ensures |s| == STUB_SIZE
  {
    [0x48, 0xb8] + Bytes(dest, 8) + [0xff, 0xe0]
  }

  /** The code at address a is a jump to dest: MOV r64, imm64 (REX.W, B8 plus the register) and
      JMP r/m64 (FF /4), in volume 2 of the Intel 64 and IA-32 Software Developer's Manual. */
  predicate JumpsTo(code: seq<Byte>, a: nat, dest: nat) {
    && a + STUB_SIZE <= |code|
    && code[a] == 0x48 && code[a + 1] == 0xb8 && Value(code[a + 2..a + 10]) == dest
    && code[a + 10] == 0xff && code[a + 11] == 0xe0
  }

  /** The number that eight bytes make up, lowest first. */
  function OfEight(b0: nat, b1: nat, b2: nat, b3: nat, b4: nat, b5: nat, b6: nat, b7: nat): nat {
    b0 + 0x100 * b1 + 0x1_0000 * b2 + 0x100_0000 * b3 + 0x1_0000_0000 * b4 + 0x100_0000_0000 * b5 +
    0x1_0000_0000_0000 * b6 + 0x100_0000_0000_0000 * b7
  }

  lemma {:induction false} ValueStep(bs: seq<Byte>, i: nat)
    requires i < |bs|
    ensures Value(bs[i..]) == bs[i] + 256 * Value(bs[i + 1..])
  {
    assert bs[i..][1..] == bs[i + 1..];
  }

  lemma {:induction false} ValueOfEight(bs: seq<Byte>)
    requires |bs| == 8
    ensures Value(bs) == OfEight(bs[0], bs[1], bs[2], bs[3], bs[4], bs[5], bs[6], bs[7])
  {
    assert bs[0..] == bs && Value(bs[8..]) == 0;
    hide Value;
    ValueStep(bs, 0);
    ValueStep(bs, 1);
    ValueStep(bs, 2);
    ValueStep(bs, 3);
    ValueStep(bs, 4);
    ValueStep(bs, 5);
    ValueStep(bs, 6);
    ValueStep(bs, 7);
  }

  /** The range of a 64-bit address. */
  lemma LimitOfEight()
    ensures Limit(8) == 0x1_0000_0000_0000_0000
  {
    assert Limit(4) == 0x1_0000_0000;
  }

  /** The eight bytes of the address are in the order of the machine, lowest first. */
  lemma {:induction false} StubJumps(code: seq<Byte>, a: nat, dest: nat)
    requires a + STUB_SIZE <= |code| && dest < 0x1_0000_0000_0000_0000 && code[a..a + STUB_SIZE] == Stub(dest)
    ensures JumpsTo(code, a, dest)
    ensures dest == OfEight(code[a + 2], code[a + 3], code[a + 4], code[a + 5], code[a + 6], code[a + 7], code[a + 8],
        code[a + 9])
  {
    hide Bytes, Value, Limit;
    LimitOfEight();
    ValueOfEight(code[a + 2..a + 10]);
    var s, b := code[a..a + STUB_SIZE], Bytes(dest, 8);
    assert s == [0x48, 0xb8] + b + [0xff, 0xe0];
    assert ([0x48, 0xb8] + b + [0xff, 0xe0])[2..10] == b;
    forall i | 0 <= i < 8 ensures code[a + 2..a + 10][i] == s[2..10][i] {
      assert s[i + 2] == code[a + 2 + i];
    }
    assert code[a + 2..a + 10] == s[2..10];
    ValueBytes(dest, 8);
    assert s[0] == code[a] && s[1] == code[a + 1] && s[10] == code[a + 10] && s[11] == code[a + 11];
  }

  // ----- Patches -----

  /** A function to redirect, and where to. */
  datatype Hook = Hook(target: nat, dest: nat)

  /** The bytes found at an address. */
  datatype Saved = Saved(at: nat, bytes: seq<Byte>)

  predicate Fits(size: nat, hooks: seq<Hook>) {
    forall i :: 0 <= i < |hooks| ==> hooks[i].target + STUB_SIZE <= size && hooks[i].dest < 0x1_0000_0000_0000_0000
  }

  /** No two targets are closer than the size of a stub. */
  predicate Apart(hooks: seq<Hook>) {
    forall i, j :: 0 <= i < j < |hooks| ==>
      hooks[i].target + STUB_SIZE <= hooks[j].target || hooks[j].target + STUB_SIZE <= hooks[i].target
  }

  function Patched(code: seq<Byte>, a: nat, bytes: seq<Byte>): (c: seq<Byte>)
    requires a + |bytes| <= |code|
    ensures |c| == |code|
  {
    code[..a] + bytes + code[a + |bytes|..]
  }

  /** Memory after the first n hooks are installed. */
  function Installed(code: seq<Byte>, hooks: seq<Hook>, n: nat): (c: seq<Byte>)
    requires n <= |hooks| && Fits(|code|, hooks)
    ensures |c| == |code|
  {
    if n == 0 then code
    else Patched(Installed(code, hooks, n - 1), hooks[n - 1].target, Stub(hooks[n - 1].dest))
  }

  /** What is saved when hook i is installed. */
  function SavedAt(code: seq<Byte>, hooks: seq<Hook>, i: nat): (s: Saved)
    requires i < |hooks| && Fits(|code|, hooks)
    ensures s.at == hooks[i].target && |s.bytes| == STUB_SIZE
  {
    var t := hooks[i].target;
    Saved(t, Installed(code, hooks, i)[t..t + STUB_SIZE])
  }

  function Saves(code: seq<Byte>, hooks: seq<Hook>, n: nat): seq<Saved>
    requires n <= |hooks| && Fits(|code|, hooks)
  {
    seq(n, i requires 0 <= i < n => SavedAt(code, hooks, i))
  }

  predicate Restorable(size: nat, saved: seq<Saved>, order: seq<nat>) {
    && (forall i :: 0 <= i < |saved| ==> saved[i].at + |saved[i].bytes| <= size)
    && (forall j :: 0 <= j < |order| ==> order[j] < |saved|)
  }

  /** Memory after the first n restores of the given order. */
  function Restored(code: seq<Byte>, saved: seq<Saved>, order: seq<nat>, n: nat): (c: seq<Byte>)
    requires n <= |order| && Restorable(|code|, saved, order)
    ensures |c| == |code|
  {
    if n == 0 then code
    else
      var s := saved[order[n - 1]];
      Patched(Restored(code, saved, order, n - 1), s.at, s.bytes)
  }

  // ----- After the installs -----

  predicate Inside(h: Hook, k: nat) {
    h.target <= k < h.target + STUB_SIZE
  }

  lemma {:induction false} PatchedAt(code: seq<Byte>, a: nat, bytes: seq<Byte>, k: nat)
    requires a + |bytes| <= |code| && k < |code|
    ensures Patched(code, a, bytes)[k] == if a <= k < a + |bytes| then bytes[k - a] else code[k]
  {
  }

  lemma {:induction false} InstalledAt(code: seq<Byte>, hooks: seq<Hook>, n: nat, k: nat)
    requires n <= |hooks| && Fits(|code|, hooks) && Apart(hooks) && k < |code|
    ensures forall i :: 0 <= i < n && Inside(hooks[i], k) ==>
      Installed(code, hooks, n)[k] == Stub(hooks[i].dest)[k - hooks[i].target]
    ensures (forall i :: 0 <= i < n ==> !Inside(hooks[i], k)) ==> Installed(code, hooks, n)[k] == code[k]
  {
    hide Stub, Patched;
    if n > 0 {
      InstalledAt(code, hooks, n - 1, k);
      PatchedAt(Installed(code, hooks, n - 1), hooks[n - 1].target, Stub(hooks[n - 1].dest), k);
    }
  }

  lemma {:induction false} HookInstalled(code: seq<Byte>, hooks: seq<Hook>, i: nat)
    requires Fits(|code|, hooks) && Apart(hooks) && i < |hooks|
    ensures JumpsTo(Installed(code, hooks, |hooks|), hooks[i].target, hooks[i].dest)
  {
    hide Stub, Installed, JumpsTo, Apart;
    var c, t := Installed(code, hooks, |hooks|), hooks[i].target;
    forall k | t <= k < t + STUB_SIZE ensures c[k] == Stub(hooks[i].dest)[k - t] {
      InstalledAt(code, hooks, |hooks|, k);
    }
    assert c[t..t + STUB_SIZE] == Stub(hooks[i].dest);
    StubJumps(c, t, hooks[i].dest);
  }

  /** After all installs each target is a jump to its replacement, and no other byte changed. */
  lemma {:induction false} HooksInstalled(code: seq<Byte>, hooks: seq<Hook>)
    requires Fits(|code|, hooks) && Apart(hooks)
    ensures var c := Installed(code, hooks, |hooks|);
            && (forall i :: 0 <= i < |hooks| ==> JumpsTo(c, hooks[i].target, hooks[i].dest))
            && (forall k :: 0 <= k < |code| && (forall i :: 0 <= i < |hooks| ==> !Inside(hooks[i], k)) ==>
                c[k] == code[k])
  {
    hide Stub, Installed, JumpsTo, Apart, Inside;
    var c := Installed(code, hooks, |hooks|);
    forall i | 0 <= i < |hooks| ensures JumpsTo(c, hooks[i].target, hooks[i].dest) {
      HookInstalled(code, hooks, i);
    }
    forall k | 0 <= k < |code| && (forall i :: 0 <= i < |hooks| ==> !Inside(hooks[i], k)) ensures c[k] == code[k] {
      InstalledAt(code, hooks, |hooks|, k);
    }
  }

  // ----- After the restores -----

  /** The byte that the first n installs leave at k; no value if none of them covers it. */
  function StubByte(hooks: seq<Hook>, n: nat, k: nat): (b: Option<Byte>)
    requires n <= |hooks|
    ensures b.None? <==> forall i :: 0 <= i < n ==> !Inside(hooks[i], k)
  {
    if n == 0 then None
    else if Inside(hooks[n - 1], k) then Some(Stub(hooks[n - 1].dest)[k - hooks[n - 1].target])
    else StubByte(hooks, n - 1, k)
  }

  /** The last of the first n restores that covers k. */
  function LastRestore(hooks: seq<Hook>, order: seq<nat>, n: nat, k: nat): (j: Option<nat>)
    requires n <= |order| && forall j :: 0 <= j < |order| ==> order[j] < |hooks|
    ensures j.Some? ==> j.value < n && Inside(hooks[order[j.value]], k)
    ensures forall l :: (if j.Some? then j.value + 1 else 0) <= l < n ==> !Inside(hooks[order[l]], k)
  {
    if n == 0 then None
    else if Inside(hooks[order[n - 1]], k) then Some(n - 1)
    else LastRestore(hooks, order, n - 1, k)
  }

  lemma {:induction false} InstalledByte(code: seq<Byte>, hooks: seq<Hook>, n: nat, k: nat)
    requires n <= |hooks| && Fits(|code|, hooks) && k < |code|
    ensures Installed(code, hooks, n)[k] ==
            match StubByte(hooks, n, k) case None => code[k] case Some(b) => b
  {
    hide Stub, Patched;
    if n > 0 {
      InstalledByte(code, hooks, n - 1, k);
      PatchedAt(Installed(code, hooks, n - 1), hooks[n - 1].target, Stub(hooks[n - 1].dest), k);
    }
  }

  lemma {:induction false} RestoredByte(code: seq<Byte>, hooks: seq<Hook>, order: seq<nat>, n: nat, k: nat)
    requires Orders(|code|, hooks, order) && n <= |order| && k < |code|
    ensures Restored(Installed(code, hooks, |hooks|), Saves(code, hooks, |hooks|), order, n)[k] ==
            match LastRestore(hooks, order, n, k)
            case None => Installed(code, hooks, |hooks|)[k]
            case Some(j) => Installed(code, hooks, order[j])[k]
  {
    hide Patched, Installed;
    if n > 0 {
      RestoredByte(code, hooks, order, n - 1, k);
      var c, saved := Installed(code, hooks, |hooks|), Saves(code, hooks, |hooks|);
      PatchedAt(Restored(c, saved, order, n - 1), saved[order[n - 1]].at, saved[order[n - 1]].bytes, k);
    }
  }

  predicate Orders(size: nat, hooks: seq<Hook>, order: seq<nat>) {
    Fits(size, hooks) && forall j :: 0 <= j < |order| ==> order[j] < |hooks|
  }

  /** Memory after all installs, and the restores in the given order. */
  function RoundTrip(code: seq<Byte>, hooks: seq<Hook>, order: seq<nat>): (c: seq<Byte>)
    requires Orders(|code|, hooks, order)
    ensures |c| == |code|
  {
    Restored(Installed(code, hooks, |hooks|), Saves(code, hooks, |hooks|), order, |order|)
  }

  /** The stub byte that the round trip leaves at k; no value if it brings back the original. */
  function Residue(hooks: seq<Hook>, order: seq<nat>, k: nat): Option<Byte>
    requires forall j :: 0 <= j < |order| ==> order[j] < |hooks|
  {
    match LastRestore(hooks, order, |order|, k)
    case None => StubByte(hooks, |hooks|, k)
    case Some(j) => StubByte(hooks, order[j], k)
  }

  lemma {:induction false} RoundTripByte(code: seq<Byte>, hooks: seq<Hook>, order: seq<nat>, k: nat)
    requires Orders(|code|, hooks, order) && k < |code|
    ensures RoundTrip(code, hooks, order)[k] == match Residue(hooks, order, k) case None => code[k] case Some(b) => b
  {
    hide Installed, Restored, StubByte, LastRestore;
    RestoredByte(code, hooks, order, |order|, k);
    InstalledByte(code, hooks, |hooks|, k);
    var last := LastRestore(hooks, order, |order|, k);
    if last.Some? {
      InstalledByte(code, hooks, order[last.value], k);
    }
  }

  /** Hook i is the first one installed over byte k. */
  predicate FirstOver(hooks: seq<Hook>, i: nat, k: nat) {
    i < |hooks| && Inside(hooks[i], k) && forall h :: 0 <= h < i ==> !Inside(hooks[h], k)
  }

  /** For every byte covered by a hook, the last restore that covers it is that of the first hook
      installed over it. */
  ghost predicate FirstRestoredLast(size: nat, hooks: seq<Hook>, order: seq<nat>)
    requires forall j :: 0 <= j < |order| ==> order[j] < |hooks|
  {
    forall k: nat, i: nat :: k < size && FirstOver(hooks, i, k) ==>
      var j := LastRestore(hooks, order, |order|, k); j.Some? && order[j.value] == i
  }

  lemma {:induction false} SomeFirst(hooks: seq<Hook>, n: nat, k: nat) returns (i: nat)
    requires n < |hooks| && Inside(hooks[n], k)
    ensures i <= n && FirstOver(hooks, i, k)
  {
    if h :| 0 <= h < n && Inside(hooks[h], k) {
      i := SomeFirst(hooks, h, k);
    } else {
      i := n;
    }
  }

  lemma {:induction false} NoResidueExactly(hooks: seq<Hook>, order: seq<nat>, k: nat)
    requires forall j :: 0 <= j < |order| ==> order[j] < |hooks|
    ensures Residue(hooks, order, k).None? <==>
            forall i: nat :: FirstOver(hooks, i, k) ==>
              var j := LastRestore(hooks, order, |order|, k); j.Some? && order[j.value] == i
  {
    hide StubByte, LastRestore, Inside;
    var last := LastRestore(hooks, order, |order|, k);
    if last.Some? {
      var i := SomeFirst(hooks, order[last.value], k);
    } else if h :| 0 <= h < |hooks| && Inside(hooks[h], k) {
      var i := SomeFirst(hooks, h, k);
    }
  }

  /** Whatever the code was, the restores bring it back, if and only if the first hook over each
      byte is restored last. */
  lemma {:induction false} RestoredExactly(size: nat, hooks: seq<Hook>, order: seq<nat>)
    requires Orders(size, hooks, order)
    ensures (forall code: seq<Byte> :: |code| == size ==> RoundTrip(code, hooks, order) == code) <==>
            FirstRestoredLast(size, hooks, order)
  {
    hide RoundTrip, Residue, FirstOver, LastRestore;
    if FirstRestoredLast(size, hooks, order) {
      forall code: seq<Byte> | |code| == size ensures RoundTrip(code, hooks, order) == code {
        forall k | 0 <= k < size ensures RoundTrip(code, hooks, order)[k] == code[k] {
          NoResidueExactly(hooks, order, k);
          RoundTripByte(code, hooks, order, k);
        }
      }
    }
    if forall code: seq<Byte> :: |code| == size ==> RoundTrip(code, hooks, order) == code {
      forall k: nat | k < size ensures Residue(hooks, order, k).None? {
        var r := Residue(hooks, order, k);
        var other: Byte := if r == Some(0) then 1 else 0;
        var code: seq<Byte> := seq(size, _ => other);
        RoundTripByte(code, hooks, order, k);
      }
      forall k: nat, i: nat | k < size && FirstOver(hooks, i, k)
        ensures var j := LastRestore(hooks, order, |order|, k); j.Some? && order[j.value] == i
      {
        NoResidueExactly(hooks, order, k);
      }
    }
  }

  /** Targets that are apart come back in whatever order, and however often, all hooks are
      restored. */
  lemma {:induction false} AnyOrderRestores(code: seq<Byte>, hooks: seq<Hook>, order: seq<nat>)
    requires Orders(|code|, hooks, order) && Apart(hooks)
    requires forall i :: 0 <= i < |hooks| ==> i in order
    ensures RoundTrip(code, hooks, order) == code
  {
    hide RoundTrip, LastRestore;
    forall k: nat, i: nat | k < |code| && FirstOver(hooks, i, k)
      ensures var j := LastRestore(hooks, order, |order|, k); j.Some? && order[j.value] == i
    {
      assert i in order;
      var l :| 0 <= l < |order| && order[l] == i;
    }
    RestoredExactly(|code|, hooks, order);
  }

  // ----- The order of the restores -----

  /** n - 1 down to 0. */
  function Backwards(n: nat): (order: seq<nat>)
    ensures |order| == n
  {
    seq(n, j requires 0 <= j < n => n - 1 - j)
  }

  lemma {:induction false} RestoredFront(c: seq<Byte>, saved: seq<Saved>, order: seq<nat>, n: nat)
    requires 0 < n <= |order| && Restorable(|c|, saved, order)
    ensures var s := saved[order[0]];
            Restored(c, saved, order, n) == Restored(Patched(c, s.at, s.bytes), saved, order[1..], n - 1)
  {
    hide Patched;
    if n > 1 {
      RestoredFront(c, saved, order, n - 1);
    }
  }

  lemma {:induction false} PatchedBack(code: seq<Byte>, a: nat, bytes: seq<Byte>)
    requires a + |bytes| <= |code|
    ensures Patched(Patched(code, a, bytes), a, code[a..a + |bytes|]) == code
  {
  }

  /** Restoring backwards needs no distance between the targets. */
  lemma {:induction false} BackwardsRestores(code: seq<Byte>, hooks: seq<Hook>, saved: seq<Saved>, n: nat)
    requires n <= |hooks| && Fits(|code|, hooks) && |saved| >= n && Restorable(|code|, saved, Backwards(n))
    requires forall i :: 0 <= i < n ==> saved[i] == SavedAt(code, hooks, i)
    ensures Restored(Installed(code, hooks, n), saved, Backwards(n), n) == code
  {
    hide Stub, Patched;
    if n > 0 {
      var c, h := Installed(code, hooks, n), hooks[n - 1];
      RestoredFront(c, saved, Backwards(n), n);
      assert Backwards(n)[1..] == Backwards(n - 1);
      PatchedBack(Installed(code, hooks, n - 1), h.target, Stub(h.dest));
      BackwardsRestores(code, hooks, saved, n - 1);
    }
  }

  // ----- The module -----

  /** The hooks in the order in which unloading the module restores them. */
  const EXIT_ORDER: seq<nat> := [0, 1, 2, 4, 3, 5, 6, 7, 10, 8, 9, 11, 12]
  const HOOKS: nat := 13

  /** Where hook i has its turn in that order. */
  function ExitTurn(i: nat): (p: nat)
    requires i < HOOKS
    ensures p < HOOKS
  {
    if i == 3 then 4 else if i == 4 then 3 else if i == 8 then 9 else if i == 9 then 10 else if i == 10 then 8 else i
  }

  lemma ExitTurns()
    ensures |EXIT_ORDER| == HOOKS
    ensures forall p :: 0 <= p < HOOKS ==> EXIT_ORDER[p] < HOOKS && ExitTurn(EXIT_ORDER[p]) == p
    ensures forall i :: 0 <= i < HOOKS ==> EXIT_ORDER[ExitTurn(i)] == i
  {
  }

  predicate Overlap(g: Hook, h: Hook) {
    g.target < h.target + STUB_SIZE && h.target < g.target + STUB_SIZE
  }

  /** Hooks i and j, installed in this order, are restored in the opposite order. */
  predicate Swapped(i: nat, j: nat) {
    (i == 3 && j == 4) || (i == 8 && j == 10) || (i == 9 && j == 10)
  }

  /** Two hooks overlap only if the module restores them in the opposite order. */
  ghost predicate OverlapsSwapped(hooks: seq<Hook>) {
    forall i: nat, j: nat :: i < j < |hooks| && Overlap(hooks[i], hooks[j]) ==> Swapped(i, j)
  }

  lemma {:induction false} SwappedTurns(i: nat, j: nat)
    requires i < j < HOOKS
    ensures Swapped(i, j) <==> ExitTurn(j) < ExitTurn(i)
  {
  }

  lemma {:induction false} LastTurn(hooks: seq<Hook>, i: nat, h: nat, k: nat)
    requires |hooks| == HOOKS && forall p :: 0 <= p < |EXIT_ORDER| ==> EXIT_ORDER[p] < |hooks|
    requires h < HOOKS && Inside(hooks[h], k) && h != i
    requires var j := LastRestore(hooks, EXIT_ORDER, |EXIT_ORDER|, k); j.Some? && EXIT_ORDER[j.value] == i
    ensures i < HOOKS && ExitTurn(h) < ExitTurn(i)
  {
    hide LastRestore, ExitTurn, Inside;
    ExitTurns();
    var j := LastRestore(hooks, EXIT_ORDER, |EXIT_ORDER|, k);
    assert EXIT_ORDER[ExitTurn(h)] == h;
    assert ExitTurn(i) == j.value;
  }

  lemma {:induction false} ExitValid(size: nat, hooks: seq<Hook>)
    requires |hooks| == HOOKS && Fits(size, hooks)
    ensures Orders(size, hooks, EXIT_ORDER)
  {
    ExitTurns();
  }

  /** Unloading the module brings back every code if and only if two hooks overlap only where the
      order of the restores is turned round: 3 and 4, 8 and 10, 9 and 10. */
  lemma {:induction false} ExitRestoresExactly(size: nat, hooks: seq<Hook>)
    requires |hooks| == HOOKS && Fits(size, hooks)
    ensures Orders(size, hooks, EXIT_ORDER)
    ensures (forall code: seq<Byte> :: |code| == size ==> RoundTrip(code, hooks, EXIT_ORDER) == code) <==>
            OverlapsSwapped(hooks)
  {
    hide RoundTrip, LastRestore, ExitTurn, Swapped, EXIT_ORDER;
    ExitValid(size, hooks);
    ExitTurns();
    RestoredExactly(size, hooks, EXIT_ORDER);
    if OverlapsSwapped(hooks) {
      forall k: nat, i: nat | k < size && FirstOver(hooks, i, k)
        ensures var j := LastRestore(hooks, EXIT_ORDER, |EXIT_ORDER|, k); j.Some? && EXIT_ORDER[j.value] == i
      {
        FirstHasLastTurn(hooks, i, k);
      }
    }
    if FirstRestoredLast(size, hooks, EXIT_ORDER) {
      forall i: nat, j: nat | i < j < |hooks| && Overlap(hooks[i], hooks[j]) ensures Swapped(i, j) {
        OverlapSwapped(size, hooks, i, j);
      }
    }
  }

  lemma {:induction false} FirstHasLastTurn(hooks: seq<Hook>, i: nat, k: nat)
    requires |hooks| == HOOKS && forall p :: 0 <= p < |EXIT_ORDER| ==> EXIT_ORDER[p] < |hooks|
    requires OverlapsSwapped(hooks) && FirstOver(hooks, i, k)
    ensures var j := LastRestore(hooks, EXIT_ORDER, |EXIT_ORDER|, k); j.Some? && EXIT_ORDER[j.value] == i
  {
    hide LastRestore, ExitTurn, Swapped;
    ExitTurns();
    assert EXIT_ORDER[ExitTurn(i)] == i;
    var j := LastRestore(hooks, EXIT_ORDER, |EXIT_ORDER|, k);
    var h := EXIT_ORDER[j.value];
    if h != i {
      assert i < h && Overlap(hooks[i], hooks[h]);
      SwappedTurns(i, h);
    }
  }

  lemma {:induction false} OverlapSwapped(size: nat, hooks: seq<Hook>, i: nat, j: nat)
    requires |hooks| == HOOKS && Orders(size, hooks, EXIT_ORDER) && FirstRestoredLast(size, hooks, EXIT_ORDER)
    requires i < j < HOOKS && Overlap(hooks[i], hooks[j])
    ensures Swapped(i, j)
  {
    hide LastRestore, ExitTurn, EXIT_ORDER;
    var k := if hooks[i].target < hooks[j].target then hooks[j].target else hooks[i].target;
    var m := SomeFirst(hooks, i, k);
    LastTurn(hooks, m, j, k);
    SwappedTurns(m, j);
    if m < i {
      LastTurn(hooks, m, i, k);
      SwappedTurns(m, i);
    }
  }

  /** Thirteen targets of which two overlap, so that unloading may leave stub bytes behind. */
  function OverlapSample(): seq<Hook> {
    seq(HOOKS, i requires 0 <= i < HOOKS => Hook(if i == 1 then 6 else STUB_SIZE * i, 0))
  }

  lemma {:induction false} ExitMayFail()
    ensures Orders(HOOKS * STUB_SIZE, OverlapSample(), EXIT_ORDER)
    ensures exists code: seq<Byte> ::
      |code| == HOOKS * STUB_SIZE && RoundTrip(code, OverlapSample(), EXIT_ORDER) != code
  {
    hide RoundTrip;
    var hooks := OverlapSample();
    LimitPositive(8);
    assert Overlap(hooks[0], hooks[1]);
    ExitRestoresExactly(HOOKS * STUB_SIZE, hooks);
  }

  class Module {
    const code: array<Byte>
    var saved: seq<Saved>

    constructor (code: array<Byte>)
      ensures this.code == code && saved == []
    {
      this.code, saved := code, [];
    }

    /** Saves the first bytes of a function and overwrites them with a jump. */
    method Install(h: Hook)
      requires h.target + STUB_SIZE <= code.Length
      modifies code, `saved
      ensures saved == old(saved) + [Saved(h.target, old(code[h.target..h.target + STUB_SIZE]))]
      ensures code[..] == Patched(old(code[..]), h.target, Stub(h.dest))
    {
      hide Stub;
      saved := saved + [Saved(h.target, code[h.target..h.target + STUB_SIZE])];
      var machineCode := Stub(h.dest);
      Copy(h.target, machineCode);
    }

    method Copy(a: nat, bytes: seq<Byte>)
      requires a + |bytes| <= code.Length
      modifies code
      ensures code[..] == Patched(old(code[..]), a, bytes)
    {
      forall i | 0 <= i < |bytes| {
        code[a + i] := bytes[i];
      }
    }

    method Restore(i: nat)
      requires i < |saved| && saved[i].at + |saved[i].bytes| <= code.Length
      modifies code
      ensures code[..] == Patched(old(code[..]), saved[i].at, saved[i].bytes)
    {
      Copy(saved[i].at, saved[i].bytes);
    }

    method InstallAll(hooks: seq<Hook>)
      requires saved == [] && Fits(code.Length, hooks)
      modifies code, `saved
      ensures code[..] == Installed(old(code[..]), hooks, |hooks|)
      ensures saved == Saves(old(code[..]), hooks, |hooks|)
    {
      hide Stub, Patched;
      ghost var before := code[..];
      for n := 0 to |hooks|
        invariant code[..] == Installed(before, hooks, n) && saved == Saves(before, hooks, n)
      {
        Install(hooks[n]);
      }
    }

    method RestoreAll(order: seq<nat>)
      requires Restorable(code.Length, saved, order)
      modifies code
      ensures code[..] == Restored(old(code[..]), saved, order, |order|)
    {
      hide Patched;
      ghost var before := code[..];
      for n := 0 to |order|
        invariant code[..] == Restored(before, saved, order, n)
      {
        Restore(order[n]);
      }
    }

    /** Unloading the module completes the round trip.  It leaves no trace of the hooks if they
        overlap at most where the order of the restores is turned round, and else of some code. */
    method Exit(ghost original: seq<Byte>, ghost hooks: seq<Hook>)
      requires |original| == code.Length && |hooks| == HOOKS && Fits(code.Length, hooks)
      requires code[..] == Installed(original, hooks, HOOKS) && saved == Saves(original, hooks, HOOKS)
      modifies code
      ensures Orders(code.Length, hooks, EXIT_ORDER) && code[..] == RoundTrip(original, hooks, EXIT_ORDER)
      ensures OverlapsSwapped(hooks) ==> code[..] == original
    {
      hide Installed, Restored, OverlapsSwapped;
      ExitRestoresExactly(code.Length, hooks);
      assert OverlapsSwapped(hooks) ==> RoundTrip(original, hooks, EXIT_ORDER) == original;
      RestoreAll(EXIT_ORDER);
    }
  }
}
