/** The buffered scanner that drives the tables: matching, refilling the buffer, and the
    treatment of NULs and of the end of the input. */
module FlexScanner {
  import opened FlexTables
  import opened Types
  import opened Wrappers

  datatype Status = New | Normal | EofPending

  /** What one pass of the scanner delivers. */
  datatype Outcome = Matched(token: Token) | EndOfFile

  datatype Refill = EndOfInput | ContinueScan | LastMatch

  const READ_BUF_SIZE: nat := 8192

  class Scanner {
    const t: Tables
    /** The size of the buffer at first. */
    const size: nat
    /** The input that has not been read yet. */
    var source: seq<Byte>
    var chBuf: array<Byte>
    var bufSize: nat
    var nChars: nat
    var cBufP: nat
    var textPtr: nat
    var hold: Byte
    var atBol: bool
    var status: Status
    var lastState: nat
    var lastCpos: nat
    /** The longest text that any refill so far has kept, and whether it starts a line. */
    ghost var kept: seq<Byte>
    ghost var keptBol: bool
    /** How many characters put back have not been read again, at most, and how many there were before
        the text. */
    ghost var back: nat
    ghost var backBefore: nat

    /** The buffer has room for its characters and for two end-of-buffer characters. */
    ghost predicate Sized()
      reads this`chBuf, this`bufSize, this`nChars, chBuf
    {
      size <= bufSize && bufSize > 0 && chBuf.Length == bufSize + 2 && nChars <= bufSize && chBuf[nChars + 1] == 0
    }

    /** The state between two passes: the character at cBufP is in hold. */
    ghost predicate Valid()
      reads `source, `chBuf, `bufSize, `nChars, `cBufP, `hold, `status, `kept, `keptBol, `back, chBuf
    {
      && WellFormed(t) && Sized() && cBufP <= nChars && Spare(cBufP) && Near(cBufP, back) && Ran()
      && (if cBufP == nChars then hold else chBuf[nChars]) == 0
      && (status.EofPending? ==> source == [])
    }

    /** There is a place to spare before position p or behind the characters. */
    ghost predicate Spare(p: nat)
      reads `bufSize, `nChars
    {
      nChars < bufSize || p >= 1
    }

    /** When a refill kept this text, the match had run over all of it and could still go on. */
    ghost predicate Ran()
      reads `kept, `keptBol
      requires WellFormed(t)
    {
      Live(t, RunTo(t, Start(keptBol), kept, |kept|))
    }

    /** No more lies behind position p than what was kept and one read, but for b characters put back. */
    ghost predicate Near(p: nat, b: nat)
      reads `nChars, `kept
    {
      nChars <= p + |kept| + READ_BUF_SIZE + b
    }

    /** The input still to be scanned, in the buffer and beyond it. */
    ghost function Pending(): seq<Byte>
      reads `source, `chBuf, `bufSize, `nChars, `cBufP, `hold, `status, `kept, `keptBol, `back, chBuf
      requires Valid()
    {
      (if cBufP < nChars then [hold] + chBuf[cBufP + 1..nChars] else []) + source
    }

    constructor (t: Tables, size: nat, source: seq<Byte>)
      requires WellFormed(t) && size > 0
      ensures Valid() && Pending() == source && atBol && this.t == t && this.size == size
      ensures fresh(chBuf) && bufSize == size && back == 0 && kept == []
    {
      this.t, this.size := t, size;
      this.source := source;
      chBuf := new Byte[size + 2](_ => 0);
      bufSize := size;
      nChars, cBufP, textPtr, hold := 0, 0, 0, 0;
      atBol, status := true, New;
      lastState, lastCpos := 0, 0;
      kept, keptBol, back, backBefore := [], true, 0, 0;
    }

    /** Discards the buffer and marks it as new. */
    method Restart()
      requires bufSize > 0 && chBuf.Length == bufSize + 2
      modifies this, chBuf
      ensures chBuf == old(chBuf) && bufSize == old(bufSize) && source == old(source)
      ensures kept == old(kept) && keptBol == old(keptBol) && back == old(back)
      ensures nChars == cBufP == textPtr == 0 && chBuf[0] == 0 && chBuf[1] == 0 && hold == 0
      ensures atBol && status == New
    {
      nChars := 0;
      chBuf[0] := 0;
      chBuf[1] := 0;
      atBol, status := true, New;
      textPtr, cBufP := 0, 0;
      hold := chBuf[0];
    }

    /** Reads some of the remaining input into the buffer, at least one character unless none is
        left; how many is up to the environment. */
    method Read(at: nat, max: nat)
      requires max > 0 && at + max <= chBuf.Length
      modifies this`nChars, this`source, chBuf
      ensures nChars <= max && nChars <= |old(source)|
      ensures nChars == 0 ==> old(source) == []
      ensures source == old(source)[nChars..]
      ensures chBuf[..at] == old(chBuf[..at]) && chBuf[at..at + nChars] == old(source)[..nChars]
    {
      nChars := 0;
      if source != [] {
        var k :| 1 <= k <= |source| && k <= max;
        nChars := k;
      }
      for i := 0 to nChars
        modifies chBuf
        invariant chBuf[..at] == old(chBuf[..at]) && chBuf[at..at + i] == source[..i]
      {
        chBuf[at + i] := source[i];
      }
      source := source[nChars..];
    }

    /** Doubles the buffer until there is room for a read behind the first n characters. */
    method Grow(n: nat)
      requires chBuf.Length == bufSize + 2 && n <= bufSize && bufSize > 0
      modifies this`chBuf, this`bufSize
      ensures chBuf == old(chBuf) || fresh(chBuf)
      ensures chBuf.Length == bufSize + 2 && n + 1 < bufSize && bufSize >= old(bufSize)
      ensures chBuf[..n] == old(chBuf[..n])
    {
      while bufSize - n - 1 <= 0
        invariant chBuf == old(chBuf) || fresh(chBuf)
        invariant chBuf.Length == bufSize + 2 && n <= bufSize && bufSize > 0 && bufSize >= old(bufSize)
        invariant chBuf[..n] == old(chBuf[..n])
        decreases n + 1 - bufSize
      {
        var size := bufSize * 2;
        var b := new Byte[size + 2](i requires 0 <= i reads this, chBuf => if i < chBuf.Length then chBuf[i] else 0);
        bufSize, chBuf := size, b;
      }
    }

    /** Moves the n characters at textPtr to the start of the buffer. */
    method MoveToStart(n: nat)
      requires textPtr + n <= chBuf.Length
      modifies chBuf
      ensures chBuf[..n] == old(chBuf[textPtr..textPtr + n])
    {
      ghost var text := chBuf[textPtr..textPtr + n];
      for i := 0 to n
        invariant forall j :: 0 <= j < i ==> chBuf[j] == text[j]
        invariant forall j :: i <= j < n ==> chBuf[textPtr + j] == text[j]
      {
        chBuf[i] := chBuf[textPtr + i];
      }
    }

    /** Puts more input behind the first n characters, unless the end has been seen. */
    method ReadBehind(n: nat)
      requires chBuf.Length == bufSize + 2 && n < bufSize
      requires status.EofPending? ==> source == []
      modifies this`chBuf, this`bufSize, this`nChars, this`source, chBuf
      ensures chBuf == old(chBuf) || fresh(chBuf)
      ensures chBuf.Length == bufSize + 2 && n + nChars < bufSize && bufSize >= old(bufSize) && nChars <= READ_BUF_SIZE
      ensures chBuf[..n + nChars] + source == old(chBuf[..n] + source)
      ensures |source| == |old(source)| - nChars
      ensures nChars == 0 ==> source == []
    {
      if status.EofPending? {
        nChars := 0;
      } else {
        Grow(n);
        var numToRead := bufSize - n - 1;
        if numToRead > READ_BUF_SIZE {
          numToRead := READ_BUF_SIZE;
        }
        Read(n, numToRead);
        assert chBuf[..n + nChars] == chBuf[..n] + chBuf[n..n + nChars];
      }
    }

    /** Moves the n characters of the text to the start of the buffer and reads behind them. */
    method MoveAndRead(n: nat)
      requires Sized() && textPtr + n == nChars && n < bufSize
      requires WellFormed(t) && Ran() && Live(t, RunTo(t, Start(atBol), chBuf[textPtr..nChars], n))
      requires status.EofPending? ==> source == []
      modifies this`chBuf, this`bufSize, this`nChars, this`source, this`kept, this`keptBol, chBuf
      ensures chBuf == old(chBuf) || fresh(chBuf)
      ensures chBuf.Length == bufSize + 2 && n + nChars < bufSize && size <= bufSize && nChars <= READ_BUF_SIZE
      ensures chBuf[..n + nChars] + source == old(chBuf[textPtr..nChars] + source)
      ensures |source| == |old(source)| - nChars && (nChars == 0 ==> source == []) && n <= |kept| && Ran()
    {
      hide WellFormed, Live, RunTo;
      ghost var text := chBuf[textPtr..nChars];
      if n > |kept| {
        kept, keptBol := text, atBol;
      }
      MoveToStart(n);
      assert chBuf[..n] + source == text + source;
      ReadBehind(n);
    }

    /** Tries to read more input once the end-of-buffer character at nChars has been passed. */
    method GetNextBuffer() returns (r: Refill)
      requires Sized() && textPtr <= nChars && cBufP == nChars + 1 && Spare(textPtr) && Near(textPtr, back)
      requires !status.New? && (status.EofPending? ==> source == [])
      requires WellFormed(t) && Ran() && Live(t, RunTo(t, Start(atBol), chBuf[textPtr..nChars], nChars - textPtr))
      modifies this, chBuf
      ensures chBuf == old(chBuf) || fresh(chBuf)
      ensures Ran()
      ensures Sized() && textPtr == 0 && chBuf[nChars] == 0 && nChars < bufSize && Near(0, 0) && back == old(back)
      ensures chBuf[..nChars] + source == old(chBuf[textPtr..nChars] + source)
      ensures nChars >= old(nChars - textPtr)
      ensures r.EndOfInput? <==> old(textPtr == nChars && source == [])
      ensures r.EndOfInput? ==> nChars == 0 && source == [] && status == New && atBol && hold == 0
      ensures r.ContinueScan? ==> |source| < |old(source)| && status == old(status) && atBol == old(atBol)
      ensures r.LastMatch? ==>
        source == [] && status.EofPending? && nChars == old(nChars - textPtr) && atBol == old(atBol)
    {
      hide WellFormed, Live, RunTo, Ran;
      var numberToMove := cBufP - textPtr - 1;
      MoveAndRead(numberToMove);
      ghost var text := chBuf[..numberToMove + nChars];
      if nChars == 0 {
        if numberToMove == 0 {
          r := EndOfInput;
          Restart();
        } else {
          r := LastMatch;
          status := EofPending;
        }
      } else {
        r := ContinueScan;
      }
      MarkEnd(nChars + numberToMove);
      textPtr := 0;
      assert chBuf[..nChars] == text;
    }

    /** The buffer holds n characters: puts the two end-of-buffer characters behind them. */
    method MarkEnd(n: nat)
      requires n + 2 <= chBuf.Length
      modifies this`nChars, chBuf
      ensures nChars == n && chBuf[n] == chBuf[n + 1] == 0 && chBuf[..n] == old(chBuf[..n])
    {
      nChars := n;
      chBuf[nChars] := 0;
      chBuf[nChars + 1] := 0;
    }

    /** Follows the tables from state s on class c, through default states where needed. */
    method Transition(s: nat, c: nat) returns (n: nat)
      requires Lookup(t, s, c, CHAIN).Some?
      ensures n == Lookup(t, s, c, CHAIN).value
    {
      var state: nat, cls: nat := s, c;
      ghost var fuel: nat := CHAIN;
      while t.chk[t.base[state] + cls] != state
        invariant Lookup(t, state, cls, fuel) == Lookup(t, s, c, CHAIN)
        decreases fuel
      {
        state := t.def[state];
        if state >= |t.accept| {
          cls := t.meta[cls];
        }
        fuel := fuel - 1;
      }
      n := t.nxt[t.base[state] + cls];
    }

    /** All of the remaining input, from a token that starts at bp in the restored buffer. */
    ghost predicate Scanning(bp: nat, input: seq<Byte>)
      reads this`source, this`chBuf, this`bufSize, this`nChars, this`status, this`kept, this`keptBol, this`back, chBuf
    {
      && WellFormed(t) && Sized() && bp <= nChars && Spare(bp) && Near(bp, back) && Ran() && chBuf[nChars] == 0
      && (status.EofPending? ==> source == [])
      && chBuf[bp..nChars] + source == input
    }

    /** The longest match among the prefixes shorter than len is on record. */
    ghost predicate Recorded(bp: nat, input: seq<Byte>, len: nat)
      reads this`lastState, this`lastCpos, this`atBol
      requires WellFormed(t)
    {
      len <= |input| && OnRecord(t, atBol, input, len, lastState, lastCpos - bp)
    }

    ghost predicate LiveAt(input: seq<Byte>, k: nat)
      reads this`atBol
      requires WellFormed(t)
    {
      k <= |input| && Live(t, RunTo(t, Start(atBol), input, k))
    }

    /** Runs the automaton over the text up to cBufP once more. */
    method GetPreviousState(ghost input: seq<Byte>) returns (s: nat)
      requires Scanning(textPtr, input) && textPtr <= cBufP <= nChars
      requires LiveAt(input, cBufP - textPtr)
      modifies this`lastState, this`lastCpos
      ensures s == RunTo(t, Start(atBol), input, cBufP - textPtr)
      ensures Recorded(textPtr, input, cBufP - textPtr)
    {
      hide Steps, Accepts, Lookup, RuleAt, OnRecord;
      s := Start(atBol);
      var cp := textPtr;
      NothingOnRecord(t, atBol, input, lastState, lastCpos - textPtr);
      while cp < cBufP
        invariant textPtr <= cp <= cBufP
        invariant s == RunTo(t, Start(atBol), input, cp - textPtr)
        invariant Recorded(textPtr, input, cp - textPtr)
      {
        var b := chBuf[cp];
        var c := if b != 0 then t.ec[b] else 1;
        assert b == input[cp - textPtr];
        if s == t.jam || t.base[s] == t.base[t.jam] {
          EndedStaysJammed(t, Start(atBol), input, cp - textPtr, cBufP - textPtr);
        }
        RecordGrows(t, atBol, input, cp - textPtr, lastState, lastCpos - textPtr, s);
        if t.accept[s] != 0 {
          lastState, lastCpos := s, cp;
        }
        StepLookup(t, s, c);
        s := Transition(s, c);
        cp := cp + 1;
      }
    }

    /** Tries the transition on a NUL at cBufP from state s; zero if it jams. */
    method TryNulTrans(s: nat, ghost input: seq<Byte>) returns (next: nat)
      requires Scanning(textPtr, input) && textPtr <= cBufP < nChars && chBuf[cBufP] == 0
      requires LiveAt(input, cBufP - textPtr) && s == RunTo(t, Start(atBol), input, cBufP - textPtr)
      requires Recorded(textPtr, input, cBufP - textPtr)
      modifies this`lastState, this`lastCpos
      ensures Recorded(textPtr, input, cBufP - textPtr + 1)
      ensures next == 0 ==> RunTo(t, Start(atBol), input, cBufP - textPtr + 1) == t.jam
      ensures next != 0 ==> next == RunTo(t, Start(atBol), input, cBufP - textPtr + 1) && Live(t, next)
    {
      hide Steps, Accepts, Lookup, RuleAt, OnRecord;
      assert input[cBufP - textPtr] == 0;
      RecordGrows(t, atBol, input, cBufP - textPtr, lastState, lastCpos - textPtr, s);
      if t.accept[s] != 0 {
        lastState, lastCpos := s, cBufP;
      }
      StepLookup(t, s, 1);
      next := Transition(s, 1);
      if next == t.jam {
        next := 0;
      }
    }

    /** Where the match loop stops: past the longest run of the automaton over the buffered text,
        or past two characters the first of which is a NUL or the end of the buffer. */
    ghost predicate Stopped(bp: nat, input: seq<Byte>, cp: nat, s: nat, eob: bool)
      reads this`chBuf, this`nChars, this`lastState, this`lastCpos, this`atBol, chBuf
      requires WellFormed(t)
    {
      if eob then
        && bp + 2 <= cp <= nChars + 2 && cp <= chBuf.Length && chBuf[cp - 2] == 0
        && s == t.jam && lastState == t.endOfBuffer && lastCpos == cp - 1
        && LiveAt(input, cp - 2 - bp)
      else
        && bp < cp <= nChars && cp - bp <= |input|
        && s == RunTo(t, Start(atBol), input, cp - bp) && (s == t.jam || Ends(t, s))
        && Recorded(bp, input, cp - bp)
    }

    /** The match loop between two steps: on the text, or just past a NUL. */
    ghost predicate Going(bp: nat, input: seq<Byte>, cp: nat, s: nat, eob: bool)
      reads this`chBuf, this`nChars, this`lastState, this`lastCpos, this`atBol, chBuf
      requires WellFormed(t)
    {
      if eob then
        && bp < cp <= nChars + 1 && cp <= chBuf.Length && chBuf[cp - 1] == 0
        && s == t.endOfBuffer && LiveAt(input, cp - 1 - bp)
      else
        && bp <= cp <= nChars && LiveAt(input, cp - bp)
        && s == RunTo(t, Start(atBol), input, cp - bp) && Recorded(bp, input, cp - bp)
    }

    /** One step of the match loop. */
    method MatchStep(cp: nat, s: nat, ghost eob: bool, ghost bp: nat, ghost input: seq<Byte>)
      returns (s': nat, ghost eob': bool)
      requires Scanning(bp, input) && Going(bp, input, cp, s, eob)
      modifies this`lastState, this`lastCpos
      ensures s' < |t.base|
      ensures if t.base[s'] != t.base[t.jam] then !eob && Going(bp, input, cp + 1, s', eob')
              else Stopped(bp, input, cp + 1, s', eob')
      ensures eob ==> eob'
      ensures eob' && !eob ==> t.base[s'] != t.base[t.jam]
    {
      hide Steps, Accepts, Lookup, RuleAt, OnRecord;
      var c := t.ec[chBuf[cp]];
      if eob {
        AtEndOfBuffer(t, c);
      } else if chBuf[cp] == 0 {
        AtNul(t, s);
      } else {
        assert chBuf[cp] == input[cp - bp];
        RecordGrows(t, atBol, input, cp - bp, lastState, lastCpos - bp, s);
        StepLookup(t, s, c);
      }
      eob' := eob || chBuf[cp] == 0;
      if t.accept[s] != 0 {
        lastState, lastCpos := s, cp;
      }
      s' := Transition(s, c);
    }

    /** The match loop: from position cp0 and state s0 until no transition is left. */
    method Match(cp0: nat, s0: nat, ghost bp: nat, ghost input: seq<Byte>) returns (cp: nat, s: nat, ghost eob: bool)
      requires Scanning(bp, input) && Going(bp, input, cp0, s0, false)
      modifies this`lastState, this`lastCpos
      ensures Stopped(bp, input, cp, s, eob)
      ensures eob ==> cp - 2 >= cp0
    {
      hide Steps, Accepts, Lookup, OnRecord, Stopped;
      cp, s, eob := cp0, s0, false;
      var more := true;
      while more
        invariant cp0 <= cp && Scanning(bp, input)
        invariant more ==> Going(bp, input, cp, s, eob) && (eob ==> cp > cp0) && cp <= nChars + 1
        invariant !more ==> Stopped(bp, input, cp, s, eob) && (eob ==> cp - 2 >= cp0)
        decreases more, nChars + 1 - cp
      {
        s, eob := MatchStep(cp, s, eob, bp, input);
        cp := cp + 1;
        more := t.base[s] != t.base[t.jam];
      }
    }

    /** Backs up to the recorded match if state s at position cp matches no rule. */
    method FindAction(cp: nat, s: nat) returns (cp': nat, s': nat)
      requires s < |t.accept|
      ensures cp' == (if t.accept[s] == 0 then lastCpos else cp)
      ensures s' == (if t.accept[s] == 0 then lastState else s)
    {
      cp', s' := cp, s;
      if t.accept[s] == 0 {
        cp', s' := lastCpos, lastState;
      }
    }

    /** The state from which an action is sought: either every longer prefix jams, or all the
        input has been consumed. */
    ghost predicate Settled(bp: nat, input: seq<Byte>, cp: nat, s: nat)
      reads this`nChars, this`lastState, this`lastCpos, this`atBol
      requires WellFormed(t)
    {
      && bp < cp <= nChars && cp - bp <= |input|
      && s == RunTo(t, Start(atBol), input, cp - bp)
      && (t.accept[s] == 0 ==> Recorded(bp, input, cp - bp))
      && forall k :: cp - bp < k <= |input| ==> RunTo(t, Start(atBol), input, k) == t.jam
    }

    lemma {:induction false} SettledLongest(bp: nat, input: seq<Byte>, cp: nat, s: nat)
      requires WellFormed(t) && Settled(bp, input, cp, s)
      ensures s < |t.accept| && bp < cp <= nChars && cp - bp <= |input|
      ensures var n := (if t.accept[s] == 0 then lastCpos else cp) - bp;
              0 < n <= cp - bp && Longest(t, atBol, input, n)
      ensures var s' := if t.accept[s] == 0 then lastState else s;
              var n := (if t.accept[s] == 0 then lastCpos else cp) - bp;
              s' < |t.accept| && t.accept[s'] == RuleAt(t, atBol, input, n)
    {
      hide Steps, Lookup;
      FirstCharacterMatches(t, atBol, input);
    }

    /** The scanner stands right after token, the longest match at the start of the input. */
    ghost predicate Delivered(bol: bool, input: seq<Byte>, token: Token)
      reads this, chBuf
    {
      && Valid() && 0 < |token.text| <= |input|
      && Longest(t, bol, input, |token.text|)
      && token == Token(RuleAt(t, bol, input, |token.text|), input[..|token.text|])
      && Pending() == input[|token.text|..] && atBol == AfterNewline(token.text)
      && TextIs(token.text)
    }

    /** The text set apart, right before the position of the scanner. */
    ghost predicate TextIs(text: seq<Byte>)
      reads `chBuf, `bufSize, `nChars, `cBufP, `textPtr, `kept, `backBefore, chBuf
    {
      && cBufP == textPtr + |text| <= chBuf.Length && chBuf[textPtr..cBufP] == text
      && Spare(textPtr) && Near(textPtr, backBefore)
    }

    /** A token has been taken, when b characters were left of those put back. */
    ghost predicate Took(b: nat)
      reads `back, `backBefore
    {
      backBefore == b && back == if b > 0 then b - 1 else 0
    }

    /** Sets the text apart: the character at cp goes to hold, and a NUL takes its place. */
    method BeforeAction(bp: nat, cp: nat, ghost input: seq<Byte>)
      requires Scanning(bp, input) && bp <= cp <= nChars
      modifies this`textPtr, this`hold, this`cBufP, this`back, this`backBefore, chBuf
      ensures if bp < cp then Took(old(back)) else back == backBefore == old(back)
      ensures textPtr == bp && Valid() && Pending() == input[cp - bp..] && TextIs(old(chBuf[bp..cp]))
    {
      hide WellFormed, Ran;
      ghost var rest := chBuf[cp..nChars] + source;
      assert input[cp - bp..] == rest;
      textPtr := bp;
      hold := chBuf[cp];
      chBuf[cp] := 0;
      cBufP := cp;
      backBefore, back := back, if bp < cp && back > 0 then back - 1 else back;
      assert Pending() == rest;
    }

    lemma TextOf(bp: nat, cp: nat, input: seq<Byte>)
      requires Scanning(bp, input) && bp <= cp <= nChars
      ensures cp - bp <= |input| && chBuf[bp..cp] == input[..cp - bp]
    {
      hide WellFormed;
    }

    /** Delivers the longest match of the text that starts at bp. */
    method Deliver(bp: nat, cp: nat, s: nat, ghost input: seq<Byte>) returns (token: Token)
      requires Scanning(bp, input) && Settled(bp, input, cp, s)
      modifies this, chBuf
      ensures chBuf == old(chBuf) && Delivered(old(atBol), input, token) && Took(old(back))
    {
      hide WellFormed, Live, RuleAt, RunTo, Settled, Longest, Valid, Pending, TextIs;
      SettledLongest(bp, input, cp, s);
      var cp', s' := FindAction(cp, s);
      token := Token(t.accept[s'], chBuf[bp..cp']);
      TextOf(bp, cp', input);
      BeforeAction(bp, cp', input);
      atBol := token.text[|token.text| - 1] == 10;
    }

    /** The match loop has just passed a NUL, or the end of the buffer, at cBufP - 1. */
    ghost predicate PastNul(bp: nat, input: seq<Byte>)
      reads this, chBuf
      requires WellFormed(t)
    {
      textPtr == bp < cBufP <= nChars + 1 && Scanning(bp, input) && chBuf[cBufP - 1] == 0 &&
          LiveAt(input, cBufP - 1 - bp)
    }

    /** If the NUL at cBufP jams, the token ends before it. */
    lemma {:induction false} NulIsSettled(input: seq<Byte>, s: nat)
      requires Scanning(textPtr, input) && textPtr <= cBufP < nChars
      requires s == RunTo(t, Start(atBol), input, cBufP - textPtr)
      requires RunTo(t, Start(atBol), input, cBufP - textPtr + 1) == t.jam
      requires Recorded(textPtr, input, cBufP - textPtr + 1)
      ensures Settled(textPtr, input, cBufP, s)
    {
      hide Steps, Lookup;
      var len := cBufP - textPtr;
      FirstCharacterMatches(t, atBol, input);
      forall k | len < k <= |input| ensures RunTo(t, Start(atBol), input, k) == t.jam {
        if len + 1 < k {
          EndedStaysJammed(t, Start(atBol), input, len + 1, k);
        }
      }
    }

    /** It was a NUL of the input: take it as an ordinary character, or end the token before it. */
    method HandleNul(ghost input: seq<Byte>) returns (r: Option<Token>, s: nat)
      requires WellFormed(t) && PastNul(textPtr, input) && cBufP <= nChars
      modifies this, chBuf
      ensures chBuf == old(chBuf)
      ensures r.None? ==>
        && source == old(source) && status == old(status) && atBol == old(atBol) && back == old(back)
        && textPtr == old(textPtr) && cBufP == old(cBufP) && nChars == old(nChars)
        && Scanning(textPtr, input) && Going(textPtr, input, cBufP, s, false)
      ensures r.Some? ==> Delivered(old(atBol), input, r.value) && Took(old(back))
    {
      hide WellFormed, Class, RuleAt, RunTo, OnRecord, Delivered, Recorded, Settled;
      cBufP := cBufP - 1;
      s := GetPreviousState(input);
      var next := TryNulTrans(s, input);
      if next != 0 {
        cBufP := cBufP + 1;
        s := next;
        r := None;
      } else {
        NulIsSettled(input, s);
        var token := Deliver(textPtr, cBufP, s, input);
        r := Some(token);
      }
    }

    /** Takes all that is left, when no more will come. */
    method TakeRest(ghost input: seq<Byte>) returns (token: Token)
      requires Scanning(textPtr, input) && source == [] && |input| > 0 && LiveAt(input, |input|)
      modifies this, chBuf
      ensures chBuf == old(chBuf) && Delivered(old(atBol), input, token) && Took(old(back))
    {
      hide Steps, Accepts, Lookup, RuleAt, OnRecord, Delivered;
      cBufP := nChars;
      var s := GetPreviousState(input);
      token := Deliver(textPtr, cBufP, s, input);
    }

    /** Goes on behind the first amount characters of the text, once more have been read. */
    method GoOn(amount: nat, ghost input: seq<Byte>) returns (s: nat)
      requires Scanning(textPtr, input) && textPtr + amount <= nChars && LiveAt(input, amount)
      modifies this`cBufP, this`lastState, this`lastCpos
      ensures Scanning(textPtr, input) && Going(textPtr, input, cBufP, s, false)
    {
      hide Steps, Accepts, Lookup, RuleAt, OnRecord, RunTo;
      cBufP := textPtr + amount;
      s := GetPreviousState(input);
    }

    /** The match can go on from the text in the buffer. */
    lemma {:induction false} TextIsLive(input: seq<Byte>)
      requires WellFormed(t) && PastNul(textPtr, input) && cBufP == nChars + 1
      ensures Live(t, RunTo(t, Start(atBol), chBuf[textPtr..nChars], nChars - textPtr))
    {
      hide Steps, Accepts, Lookup;
      assert chBuf[textPtr..nChars] <= input;
      RunOfPrefix(t, Start(atBol), chBuf[textPtr..nChars], input, nChars - textPtr);
    }

    /** It was the end of the buffer: read on, or take what there is. */
    method HandleEnd(ghost input: seq<Byte>) returns (r: Option<Outcome>, s: nat)
      requires WellFormed(t) && PastNul(textPtr, input) && cBufP == nChars + 1 && !status.New?
      modifies this, chBuf
      ensures chBuf == old(chBuf) || fresh(chBuf)
      ensures r.None? ==>
        && |source| < |old(source)| && atBol == old(atBol)
        && Scanning(textPtr, input) && Going(textPtr, input, cBufP, s, false)
      ensures r.Some? && r.value.EndOfFile? ==> input == [] && Valid() && Pending() == [] && atBol
      ensures r.Some? && r.value.Matched? ==> Delivered(old(atBol), input, r.value.token) && Took(old(back))
      ensures r.None? || r.value.EndOfFile? ==> back == old(back)
    {
      hide WellFormed, Class, RuleAt, RunTo, OnRecord, Delivered, Going, Recorded, Ran;
      var amount := cBufP - textPtr - 1;
      TextIsLive(input);
      var refill := GetNextBuffer();
      match refill
      case EndOfInput =>
        cBufP, s := textPtr, 0;
        r := Some(EndOfFile);
      case ContinueScan =>
        s := GoOn(amount, input);
        r := None;
      case LastMatch =>
        var token := TakeRest(input);
        r, s := Some(Matched(token)), 0;
    }

    /** Where the match loop stopped, the action found tells whether a NUL was passed. */
    lemma {:induction false} StoppedMeans(bp: nat, input: seq<Byte>, cp: nat, s: nat, eob: bool)
      requires Scanning(bp, input) && Stopped(bp, input, cp, s, eob)
      ensures s < |t.accept|
      ensures t.accept[s] == 0 ==> lastState < |t.accept|
      ensures eob <==> t.accept[if t.accept[s] == 0 then lastState else s] == t.endRule
      ensures eob ==> t.accept[s] == 0
      ensures eob ==> bp + 1 <= lastCpos == cp - 1 <= nChars + 1
      ensures !eob ==> Settled(bp, input, cp, s)
    {
      hide Steps, Lookup;
      if !eob {
        FirstCharacterMatches(t, atBol, input);
        forall k | cp - bp < k <= |input| ensures RunTo(t, Start(atBol), input, k) == t.jam {
          EndedStaysJammed(t, Start(atBol), input, cp - bp, k);
        }
      }
    }

    /** One round: match, then deliver a token, take a NUL, or read on. */
    method Round(bp: nat, cp: nat, s: nat, ghost input: seq<Byte>) returns (r: Option<Outcome>, s': nat)
      requires Scanning(bp, input) && Going(bp, input, cp, s, false)
      modifies this, chBuf
      ensures chBuf == old(chBuf) || fresh(chBuf)
      ensures r.None? ==>
        && atBol == old(atBol) && Scanning(textPtr, input) && Going(textPtr, input, cBufP, s', false)
        && (|source| < |old(source)| || (source == old(source) && nChars - cBufP < old(nChars) - cp))
      ensures r.Some? && r.value.EndOfFile? ==> input == [] && Valid() && Pending() == [] && atBol
      ensures r.Some? && r.value.Matched? ==> Delivered(old(atBol), input, r.value.token) && Took(old(back))
      ensures r.None? || r.value.EndOfFile? ==> back == old(back)
    {
      hide Steps, Accepts, Lookup, RuleAt, OnRecord, Delivered, Settled, Stopped, Going, LiveAt;
      ghost var eob;
      var end;
      end, s', eob := Match(cp, s, bp, input);
      StoppedMeans(bp, input, end, s', eob);
      var cp', state := FindAction(end, s');
      if t.accept[state] != t.endRule {
        var token := Deliver(bp, end, s', input);
        return Some(Matched(token)), s';
      }
      assert eob;
      textPtr, cBufP := bp, cp';
      PassedNul(bp, input, end, s');
      if status.New? {
        status := Normal;
      }
      if cBufP <= nChars {
        var token;
        token, s' := HandleNul(input);
        r := if token.Some? then Some(Matched(token.value)) else None;
      } else {
        r, s' := HandleEnd(input);
      }
    }

    /** One pass of the scanner: the next token, or the end of the input. */
    method Scan() returns (r: Outcome)
      requires Valid()
      modifies this, chBuf
      ensures Valid() && (chBuf == old(chBuf) || fresh(chBuf))
      ensures r.EndOfFile? ==> old(Pending()) == [] && Pending() == [] && atBol
      ensures r.Matched? ==> Delivered(old(atBol), old(Pending()), r.token) && Took(old(back))
      ensures r.EndOfFile? ==> back == old(back)
    {
      hide Steps, Accepts, Lookup, RuleAt, OnRecord;
      ghost var input, bol := Pending(), atBol;
      chBuf[cBufP] := hold;
      var s := Start(atBol);
      textPtr := cBufP;
      assert chBuf[cBufP..nChars] + source == input;
      NothingOnRecord(t, atBol, input, lastState, lastCpos - textPtr);
      assert Going(textPtr, input, cBufP, s, false);
      while true
        invariant Scanning(textPtr, input) && atBol == bol && back == old(back) &&
            Going(textPtr, input, cBufP, s, false)
        invariant chBuf == old(chBuf) || fresh(chBuf)
        decreases |source|, nChars - cBufP
      {
        hide Delivered, Going, LiveAt;
        var done;
        done, s := Round(textPtr, cBufP, s, input);
        if done.Some? {
          r := done.value;
          break;
        }
      }
    }

    lemma {:induction false} PassedNul(bp: nat, input: seq<Byte>, cp: nat, s: nat)
      requires Scanning(bp, input) && Stopped(bp, input, cp, s, true) && textPtr == bp && cBufP == lastCpos
      ensures PastNul(bp, input)
    {
      hide Steps, Accepts, Lookup;
    }

    /** Undoes what setting the text apart did to the buffer. */
    method Restore()
      requires Valid()
      modifies chBuf
      ensures Scanning(cBufP, old(Pending())) && chBuf[..cBufP] == old(chBuf[..cBufP])
    {
      hide WellFormed;
      chBuf[cBufP] := hold;
      assert chBuf[cBufP..nChars] + source == old(Pending());
    }

    /** Moves all characters, with the two end-of-buffer characters, to the end of the buffer. */
    method ShiftUp()
      requires Sized() && cBufP <= nChars
      modifies this`nChars, this`cBufP, this`textPtr, chBuf
      ensures nChars == bufSize && cBufP == old(cBufP) + (bufSize - old(nChars))
      ensures chBuf[bufSize - old(nChars)..] == old(chBuf[..nChars + 2])
    {
      ghost var text := chBuf[..nChars + 2];
      var dest, from := bufSize + 2, nChars + 2;
      while from > 0
        modifies chBuf
        invariant dest == from + bufSize - nChars && 0 <= from <= nChars + 2
        invariant chBuf[..from] == text[..from] && chBuf[dest..] == text[from..]
      {
        dest, from := dest - 1, from - 1;
        ghost var done, before := chBuf[dest + 1..], chBuf[..from + 1];
        assert before[from] == text[from] && text[from..] == [text[from]] + done;
        chBuf[dest] := chBuf[from];
        assert chBuf[dest + 1..] == done;
        assert chBuf[dest..] == [text[from]] + done;
        assert chBuf[..from] == before[..from];
      }
      cBufP, textPtr, nChars := cBufP + dest, textPtr + dest, bufSize;
    }

    /** Makes room for two characters before the rest of the input, if the buffer has it. */
    method MakeRoom(ghost rest: seq<Byte>)
      requires Scanning(cBufP, rest)
      modifies this`nChars, this`cBufP, this`textPtr, chBuf
      ensures Scanning(cBufP, rest)
      ensures cBufP >= 2 <==> old(cBufP) >= 2 || old(cBufP + (bufSize - nChars)) >= 2
      ensures cBufP < 2 ==> nChars == bufSize
    {
      hide WellFormed, Scanning, Sized;
      ghost var n: nat, p: nat := nChars, cBufP;
      ghost var text := BeforeShift(n, p, rest);
      if cBufP < 2 {
        ShiftUp();
        ShiftedUp(text, n, p, rest);
      }
    }

    /** The characters that are moved, with the rest of the input among them. */
    lemma BeforeShift(n: nat, p: nat, rest: seq<Byte>) returns (text: seq<Byte>)
      requires Scanning(p, rest) && n == nChars && p == cBufP
      ensures Sized() && p <= n <= bufSize && chBuf.Length == bufSize + 2
      ensures text == chBuf[..n + 2] && |text| == n + 2
      ensures text[p..n] + source == rest && text[n] == 0 && text[n + 1] == 0
      ensures WellFormed(t) && Ran() && size <= bufSize && bufSize > 0 && Spare(cBufP) && Near(cBufP, back) &&
          (status.EofPending? ==> source == [])
    {
      hide WellFormed;
      text := chBuf[..n + 2];
      assert text[p..n] == chBuf[p..n];
    }

    lemma ShiftedUp(text: seq<Byte>, n: nat, p: nat, rest: seq<Byte>)
      requires p <= n <= bufSize == nChars && |text| == n + 2 && chBuf.Length == bufSize + 2
      requires cBufP == p + (bufSize - n) && chBuf[bufSize - n..] == text
      requires text[p..n] + source == rest && text[n] == 0 && text[n + 1] == 0
      requires WellFormed(t) && Ran() && size <= bufSize && bufSize > 0 && Spare(cBufP) && Near(cBufP, back) &&
          (status.EofPending? ==> source == [])
      ensures Scanning(cBufP, rest)
    {
      hide WellFormed;
      ghost var up := chBuf[bufSize - n..];
      assert up[n] == chBuf[nChars] && up[n + 1] == chBuf[nChars + 1];
      assert up[p..n] == chBuf[cBufP..nChars];
    }

    /** Writes a character before the rest of the input. */
    method PutBefore(c: Byte, ghost rest: seq<Byte>)
      requires Scanning(cBufP, rest) && cBufP >= 2
      modifies this`cBufP, this`hold, this`back, chBuf
      ensures Valid() && Pending() == [c] + rest && back == old(back) + 1
    {
      hide WellFormed;
      cBufP := cBufP - 1;
      chBuf[cBufP] := c;
      hold := chBuf[cBufP];
      back := back + 1;
      assert [hold] + chBuf[cBufP + 1..nChars] + source == [c] + rest;
    }

    /** Puts one character back before the rest of the input.  It fails, and the program with it,
        exactly if fewer than two places would lie before the scanner's position with all
        characters moved to the end of the buffer. */
    method Unput(c: Byte) returns (ok: bool)
      requires Valid()
      modifies this`nChars, this`cBufP, this`textPtr, this`hold, this`back, chBuf
      ensures back == old(back) + (if ok then 1 else 0)
      ensures ok <==> old(cBufP) >= 2 || old(cBufP + (bufSize - nChars)) >= 2
      ensures ok ==> Valid() && Pending() == [c] + old(Pending())
      ensures !ok ==> nChars == bufSize && cBufP < 2
    {
      hide WellFormed, Valid, Pending, Scanning;
      ghost var rest := Pending();
      Restore();
      MakeRoom(rest);
      ok := cBufP >= 2;
      if ok {
        PutBefore(c, rest);
      }
    }

    lemma TextFirst(text: seq<Byte>, n: nat)
      requires cBufP == textPtr + |text| <= nChars <= chBuf.Length && chBuf[textPtr..cBufP] == text && n <= |text|
      ensures chBuf[textPtr..nChars] == text + chBuf[cBufP..nChars]
      ensures chBuf[textPtr..textPtr + n] == text[..n]
    {
    }

    /** Keeps the first n characters of the text and puts the others back. */
    method Less(n: nat, ghost text: seq<Byte>)
      requires Valid() && TextIs(text) && n <= |text|
      modifies this`cBufP, this`textPtr, this`hold, this`back, this`backBefore, chBuf
      ensures n == 0 ==> back == old(backBefore)
      ensures Valid() && textPtr == old(textPtr) && TextIs(text[..n]) && Pending() == text[n..] + old(Pending())
    {
      hide WellFormed, Pending;
      ghost var rest := Pending();
      Restore();
      assert chBuf[textPtr..cBufP] == text by {
        assert chBuf[..cBufP][textPtr..] == old(chBuf[..cBufP])[textPtr..];
      }
      TextFirst(text, n);
      back := backBefore;
      BeforeAction(textPtr, textPtr + n, text + rest);
      assert (text + rest)[n..] == text[n..] + rest;
    }

    lemma TablesKnown()
      requires Valid()
      ensures WellFormed(t)
    {
      hide WellFormed;
    }

    /** Scans everything: the tokens depend on the input alone, however it arrives. */
    method ScanAll() returns (tokens: seq<Token>)
      requires Valid()
      modifies this, chBuf
      ensures tokens == Tokens(t, old(atBol), old(Pending()))
      ensures Valid() && Pending() == [] && (chBuf == old(chBuf) || fresh(chBuf))
    {
      hide WellFormed, Longest, RuleAt, Tokens, Valid, Pending, TextIs;
      TablesKnown();
      ghost var all := Tokens(t, atBol, Pending());
      tokens := [];
      ghost var rest := all;
      while true
        invariant Valid() && (chBuf == old(chBuf) || fresh(chBuf))
        invariant rest == Tokens(t, atBol, Pending()) && all == tokens + rest
        decreases |Pending()|
      {
        ghost var before, bol := Pending(), atBol;
        var r := Scan();
        if r.EndOfFile? {
          NoTokens(t, bol);
          return;
        }
        NextToken(t, bol, before, r.token);
        tokens := tokens + [r.token];
        rest := Tokens(t, atBol, Pending());
      }
    }
  }

  const YY_BUF_SIZE: nat := 16384
}
