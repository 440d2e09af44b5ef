/** Quoted strings of the kconfig language: the printer, the string states of the scanner, and
    the growing buffer that the scanner collects a string in. */
module QuotedStrings {

  const QUOTE: char := '\"'
  const APOSTROPHE: char := '\''
  const BACKSLASH: char := '\\'
  const NEWLINE: char := '\n'

  predicate IsQuote(c: char) {
    c == QUOTE || c == APOSTROPHE
  }

  predicate IsPlain(c: char) {
    !IsQuote(c) && c != BACKSLASH && c != NEWLINE
  }

  // ----- Printing -----

  /** The string with a backslash before each quote. */
  function Escape(s: string): string {
    if s == [] then [] else (if s[0] == QUOTE then [BACKSLASH, QUOTE] else [s[0]]) + Escape(s[1..])
  }

  lemma {:induction false} EscapeConcat(s: string, t: string)
    ensures Escape(s + t) == Escape(s) + Escape(t)
  {
    if s == [] {
      assert s + t == t;
    } else {
      assert (s + t)[1..] == s[1..] + t;
      EscapeConcat(s[1..], t);
    }
  }

  lemma {:induction false} EscapeNothing(s: string)
    requires QUOTE !in s
    ensures Escape(s) == s
  {
    if s != [] {
      EscapeNothing(s[1..]);
    }
  }

  lemma {:induction false} EscapeAt(s: string, p: nat)
    requires p < |s| && s[p] == QUOTE && QUOTE !in s[..p]
    ensures Escape(s) == s[..p] + [BACKSLASH, QUOTE] + Escape(s[p + 1..])
  {
    assert s == s[..p] + s[p..] && s[p..][1..] == s[p + 1..];
    EscapeNothing(s[..p]);
    EscapeConcat(s[..p], s[p..]);
  }

  /** The string without the backslashes that stand right before quotes. */
  function Stripped(s: string): string {
    if s == [] then []
    else if |s| > 1 && s[0] == '\\' && s[1] == '\"' then ['\"'] + Stripped(s[2..])
    else [s[0]] + Stripped(s[1..])
  }

  lemma EscapeFirst(c: char, t: string)
    ensures Escape([c] + t) == (if c == '\"' then ['\\', '\"'] else [c]) + Escape(t)
  {
    assert ([c] + t)[1..] == t;
  }

  lemma StrippedFirst(c: char, t: string)
    ensures Stripped(['\\', '\"'] + t) == ['\"'] + Stripped(t)
    ensures !(c == '\\' && t != [] && t[0] == '\"') ==> Stripped([c] + t) == [c] + Stripped(t)
  {
    assert (['\\', '\"'] + t)[2..] == t && ([c] + t)[1..] == t;
  }

  /** Nothing is added but a backslash right before each quote: every quote has one, and without these the
      string is as before. */
  lemma {:induction false} EscapeExactly(s: string)
    ensures forall i :: 0 <= i < |Escape(s)| && Escape(s)[i] == '\"' ==> i > 0 && Escape(s)[i - 1] == '\\'
    ensures Stripped(Escape(s)) == s
  {
    if s != [] {
      hide Escape, Stripped;
      var c, t := s[0], Escape(s[1..]);
      EscapeExactly(s[1..]);
      assert s == [c] + s[1..];
      EscapeFirst(c, s[1..]);
      assert t != [] ==> t[0] != '\"';
      StrippedFirst(c, t);
    }
  }

  /** The first position of c, or the length of the string. */
  method Find(s: string, c: char) returns (i: nat)
    ensures i <= |s| && (i < |s| ==> s[i] == c) && c !in s[..i]
  {
    i := 0;
    while i < |s| && s[i] != c
      invariant i <= |s| && c !in s[..i]
    {
      i := i + 1;
    }
  }

  /** Prints up to each quote, the quote escaped, and the rest. */
  method PrintQuoted(s: string) returns (out: string)
    ensures out == [QUOTE] + Escape(s) + [QUOTE]
  {
    hide Escape;
    out := [QUOTE];
    var str := s;
    var p: nat := Find(str, QUOTE);
    while p < |str|
      invariant p <= |str| && (p < |str| ==> str[p] == QUOTE) && QUOTE !in str[..p]
      invariant out + Escape(str) == [QUOTE] + Escape(s)
      decreases |str|
    {
      EscapeAt(str, p);
      if p > 0 {
        out := out + str[..p];
      }
      out := out + [BACKSLASH, QUOTE];
      str := str[p + 1..];
      p := Find(str, QUOTE);
    }
    assert str[..p] == str;
    EscapeNothing(str);
    out := out + str;
    out := out + [QUOTE];
  }

  // ----- What the scanner makes of a string -----

  /** A word with its text, the end of the line, or the end of the file; and what is left. */
  datatype Outcome = Word(text: string, rest: string) | EndOfLine(rest: string) | EndOfFile

  function Prepend(s: string, o: Outcome): Outcome {
    if o.Word? then o.(text := s + o.text) else o
  }

  /** Character by character, after the opening quote q. */
  function ReadString(q: char, ts: string): Outcome {
    if ts == [] then EndOfFile
    else if ts[0] == NEWLINE then EndOfLine(ts[1..])
    else if ts[0] == q then Word([], ts[1..])
    else if IsQuote(ts[0]) then Prepend([ts[0]], ReadString(q, ts[1..]))
    else if ts[0] == BACKSLASH then
      if |ts| == 1 then EndOfFile
      else if ts[1] == NEWLINE then Word([], ts[1..])
      else if |ts| > 2 && ts[2] == NEWLINE then Word([ts[1]], ts[2..])
      else Prepend([ts[1]], ReadString(q, ts[2..]))
    else if |ts| > 1 && ts[1] == NEWLINE then Word([ts[0]], ts[1..])
    else Prepend([ts[0]], ReadString(q, ts[1..]))
  }

  // ----- Printing and reading back -----

  // ----- What is read, by pieces -----

  /** A character of a string that stands for itself, or one behind a backslash. */
  datatype Piece = Plain(c: char) | Escaped(c: char)

  /** Such pieces make up the text between quotes q. */
  predicate Inside(q: char, ps: seq<Piece>) {
    forall p :: p in ps ==> p.c != '\n' && (p.Plain? ==> p.c != q && p.c != '\\')
  }

  function Written(ps: seq<Piece>): string {
    if ps == [] then [] else (if ps[0].Plain? then [ps[0].c] else ['\\', ps[0].c]) + Written(ps[1..])
  }

  function Meant(ps: seq<Piece>): string {
    seq(|ps|, i requires 0 <= i < |ps| => ps[i].c)
  }

  /** A quote that is not the one that ends the string. */
  predicate OtherQuote(p: Piece) {
    p.Plain? && (p.c == '\"' || p.c == '\'')
  }

  lemma {:induction false} PieceRead(q: char, p: Piece, ts: string)
    requires (q == '\"' || q == '\'') && Inside(q, [p])
    requires ts != [] && ts[0] == '\n' ==> OtherQuote(p)
    ensures ReadString(q, Written([p]) + ts) == Prepend([p.c], ReadString(q, ts))
  {
    assert p in [p];
    assert Written([p]) == (if p.Plain? then [p.c] else ['\\', p.c]) + Written([]);
    var us := Written([p]) + ts;
    if p.Plain? {
      assert us == [p.c] + ts && us[1..] == ts;
    } else {
      assert us == ['\\', p.c] + ts && us[2..] == ts;
    }
  }

  lemma {:induction false} LastPieceRead(q: char, p: Piece, ts: string)
    requires (q == '\"' || q == '\'') && Inside(q, [p]) && !OtherQuote(p)
    requires ts != [] && ts[0] == '\n'
    ensures ReadString(q, Written([p]) + ts) == Word([p.c], ts)
  {
    assert p in [p];
    assert Written([p]) == (if p.Plain? then [p.c] else ['\\', p.c]) + Written([]);
    var us := Written([p]) + ts;
    if p.Plain? {
      assert us == [p.c] + ts && us[1..] == ts;
    } else {
      assert us == ['\\', p.c] + ts && us[2..] == ts;
    }
  }

  lemma {:induction false} WrittenSplit(ps: seq<Piece>, qs: seq<Piece>)
    ensures Written(ps + qs) == Written(ps) + Written(qs)
  {
    if ps == [] {
      assert ps + qs == qs;
    } else {
      assert (ps + qs)[1..] == ps[1..] + qs;
      WrittenSplit(ps[1..], qs);
    }
  }

  lemma WrittenStarts(ps: seq<Piece>, ts: string)
    requires forall p :: p in ps ==> p.c != '\n'
    requires ts == [] || ts[0] != '\n'
    ensures var us := Written(ps) + ts; us == [] || us[0] != '\n'
  {
    if ps != [] {
      assert ps[0] in ps;
    }
  }

  lemma {:induction false} PiecesBefore(q: char, ps: seq<Piece>, ts: string)
    requires (q == '\"' || q == '\'') && Inside(q, ps)
    requires ts == [] || ts[0] != '\n'
    ensures ReadString(q, Written(ps) + ts) == Prepend(Meant(ps), ReadString(q, ts))
  {
    hide ReadString, Written;
    if ps == [] {
      WrittenNothing();
      assert [] + ts == ts;
      PrependNothing(ReadString(q, ts));
    } else {
      var p, qs := ps[0], ps[1..];
      assert ps == [p] + qs;
      WrittenSplit([p], qs);
      assert Written(ps) + ts == Written([p]) + (Written(qs) + ts);
      WrittenStarts(qs, ts);
      PiecesBefore(q, qs, ts);
      PieceRead(q, p, Written(qs) + ts);
      PrependTwice([p.c], Meant(qs), ReadString(q, ts));
      assert Meant(ps) == [p.c] + Meant(qs);
    }
  }

  lemma WrittenNothing()
    ensures Written([]) == []
  {
  }

  lemma PrependNothing(o: Outcome)
    ensures Prepend([], o) == o
  {
  }

  lemma EndsRead(q: char, rest: string)
    requires q == '\"' || q == '\''
    ensures ReadString(q, [q] + rest) == Word([], rest)
    ensures ReadString(q, ['\\', '\n'] + rest) == Word([], ['\n'] + rest)
    ensures ReadString(q, ['\n'] + rest) == EndOfLine(rest)
    ensures ReadString(q, []) == ReadString(q, ['\\']) == EndOfFile
  {
    assert ([q] + rest)[1..] == rest && (['\n'] + rest)[1..] == rest && (['\\', '\n'] + rest)[1..] == ['\n'] + rest;
  }

  /** What the string states deliver for pieces and what comes behind them: the end quote ends the word,
      and so does a newline behind a character that is no quote or behind a backslash; a newline right at
      the start or behind a quote ends the line without a word, and so does the end of the file. */
  lemma {:induction false} PiecesRead(q: char, ps: seq<Piece>, rest: string)
    requires (q == '\"' || q == '\'') && Inside(q, ps)
    ensures ReadString(q, Written(ps) + ([q] + rest)) == Word(Meant(ps), rest)
    ensures ReadString(q, Written(ps) + (['\\', '\n'] + rest)) == Word(Meant(ps), ['\n'] + rest)
    ensures ReadString(q, Written(ps) + []) == ReadString(q, Written(ps) + ['\\']) == EndOfFile
    ensures ReadString(q, Written(ps) + (['\n'] + rest)) ==
      if ps == [] || OtherQuote(ps[|ps| - 1]) then EndOfLine(rest) else Word(Meant(ps), ['\n'] + rest)
  {
    hide ReadString, Written;
    EndsRead(q, rest);
    PiecesBefore(q, ps, [q] + rest);
    PiecesBefore(q, ps, ['\\', '\n'] + rest);
    PiecesBefore(q, ps, []);
    PiecesBefore(q, ps, ['\\']);
    PrependWord(Meant(ps), [], rest);
    PrependWord(Meant(ps), [], ['\n'] + rest);
    assert Meant(ps) + [] == Meant(ps);
    if ps == [] {
      WrittenNothing();
      assert [] + (['\n'] + rest) == ['\n'] + rest;
    } else {
      NewlineRead(q, ps[..|ps| - 1], ps[|ps| - 1], rest);
      assert ps[..|ps| - 1] + [ps[|ps| - 1]] == ps;
    }
  }

  lemma {:induction false} NewlineRead(q: char, ps: seq<Piece>, p: Piece, rest: string)
    requires (q == '\"' || q == '\'') && Inside(q, ps + [p])
    ensures ReadString(q, Written(ps + [p]) + (['\n'] + rest)) ==
      if OtherQuote(p) then EndOfLine(rest) else Word(Meant(ps + [p]), ['\n'] + rest)
  {
    hide ReadString, Written;
    var ts := ['\n'] + rest;
    assert p in ps + [p] && forall x :: x in ps ==> x in ps + [p];
    WrittenSplit(ps, [p]);
    assert Written(ps + [p]) + ts == Written(ps) + (Written([p]) + ts);
    PieceStarts(p, ts);
    PiecesBefore(q, ps, Written([p]) + ts);
    EndsRead(q, rest);
    if OtherQuote(p) {
      PieceRead(q, p, ts);
    } else {
      LastPieceRead(q, p, ts);
      PrependWord(Meant(ps), [p.c], ts);
      assert Meant(ps + [p]) == Meant(ps) + [p.c];
    }
  }

  lemma PieceStarts(p: Piece, ts: string)
    requires p.c != '\n'
    ensures Written([p]) + ts != [] && (Written([p]) + ts)[0] != '\n'
  {
    assert Written([p]) == (if p.Plain? then [p.c] else ['\\', p.c]) + Written([]);
  }

  function Printed(s: string, rest: string): string {
    Escape(s) + [QUOTE] + rest
  }

  lemma PrintedStep(s: string, rest: string)
    requires s != []
    ensures Printed(s, rest) ==
            (if s[0] == QUOTE then [BACKSLASH, QUOTE] else [s[0]]) + Printed(s[1..], rest)
    ensures Printed(s[1..], rest) != []
    ensures Printed(s[1..], rest)[0] == NEWLINE <==> |s| > 1 && s[1] == NEWLINE
    ensures Printed(s[1..], rest)[0] == if |s| == 1 then QUOTE else if s[1] == QUOTE then BACKSLASH else s[1]
  {
  }

  lemma PrintedNothing(rest: string)
    ensures Printed([], rest) == [QUOTE] + rest
  {
  }

  lemma {:induction false} ReadsBack(s: string, rest: string)
    requires BACKSLASH !in s && NEWLINE !in s
    ensures ReadString(QUOTE, Printed(s, rest)) == Word(s, rest)
  {
    if s == [] {
      assert Printed(s, rest)[1..] == rest;
    } else {
      PrintedStep(s, rest);
      ReadsBack(s[1..], rest);
      var ts, us := Printed(s, rest), Printed(s[1..], rest);
      assert if s[0] == QUOTE then ts[2..] == us else ts[1..] == us;
      assert [s[0]] + s[1..] == s;
    }
  }

  function Backslashes(j: nat): string {
    seq(j, _ => BACKSLASH)
  }

  /** Once an escape has swallowed a backslash, the text never catches up. */
  lemma {:induction false} NeverCatchesUp(u: string, j: nat, rest: string)
    requires j > 0
    ensures var o := ReadString(QUOTE, Printed(u, rest)); !(o.Word? && o.text == Backslashes(j) + u)
    decreases |u|
  {
    hide Escape, Printed;
    var w, ts := Backslashes(j) + u, Printed(u, rest);
    assert w[0] == BACKSLASH && |w| == j + |u|;
    if u == [] {
      PrintedNothing(rest);
    } else {
      PrintedStep(u, rest);
      if u[0] == BACKSLASH && |u| > 1 {
        PrintedStep(u[1..], rest);
        if u[1] == BACKSLASH {
          assert ts[1] == BACKSLASH && ts[2..] == Printed(u[2..], rest);
          NeverCatchesUp(u[2..], j + 1, rest);
          assert w[1..] == Backslashes(j + 1) + u[2..];
        }
      }
    }
  }

  lemma {:induction false} NotReadBack(s: string, rest: string)
    requires BACKSLASH in s || NEWLINE in s
    ensures var o := ReadString(QUOTE, Printed(s, rest)); !(o.Word? && o.text == s)
  {
    PrintedStep(s, rest);
    var ts := Printed(s, rest);
    if s[0] == BACKSLASH {
      if |s| > 1 {
        PrintedStep(s[1..], rest);
        if s[1] == BACKSLASH {
          assert ts[2..] == Printed(s[2..], rest);
          NeverCatchesUp(s[2..], 1, rest);
          assert s[1..] == Backslashes(1) + s[2..];
        }
      }
    } else if s[0] != NEWLINE {
      assert s[0] == QUOTE ==> ts[2..] == Printed(s[1..], rest);
      assert s[0] != QUOTE ==> ts[1..] == Printed(s[1..], rest);
      NotReadBack(s[1..], rest);
    }
  }

  /** A printed string is read back exactly if it holds neither a backslash nor a newline. */
  lemma {:induction false} ReadsBackExactly(s: string, rest: string)
    ensures ReadString(QUOTE, Printed(s, rest)) == Word(s, rest) <==> BACKSLASH !in s && NEWLINE !in s
  {
    if BACKSLASH !in s && NEWLINE !in s {
      ReadsBack(s, rest);
    } else {
      NotReadBack(s, rest);
    }
  }

  // ----- The automaton of the string states -----

  /** yy_ec, as far as the string states tell characters apart. */
  function Class(c: char): nat {
    if c == NEWLINE then 3 else if c == QUOTE then 5 else if c == APOSTROPHE then 8 else if c == BACKSLASH then 16
        else 1
  }

  /** The rows of yy_nxt that can be entered from the start state of the string condition. */
  function Next(s: nat, k: nat): int {
    if s == 7 then (if k == 3 then 23 else if k == 5 || k == 8 then 24 else if k == 16 then 25 else 22)
    else if s == 22 || s == 51 then (if k == 3 then 52 else if k == 5 || k == 8 || k == 16 then 0 - s else 51)
    else if s == 25 then (if k == 3 then 54 else 53)
    else if s == 53 then (if k == 3 then 54 else -53)
    else 0 - s
  }

  function Accept(s: nat): nat {
    if s == 22 || s == 51 then 28 else if s == 23 then 32 else if s == 24 then 31
    else if s == 25 || s == 53 then 30 else if s == 52 then 27 else if s == 54 then 29 else 0
  }

  predicate AllPlain(s: string) {
    forall i :: 0 <= i < |s| ==> IsPlain(s[i])
  }

  /** What the automaton has seen of ts when it is in state s after n characters. */
  predicate Seen(ts: string, s: nat, n: nat)
    requires n <= |ts|
  {
    if s == 7 then n == 0
    else if s == 22 then n == 1 && IsPlain(ts[0])
    else if s == 51 then n >= 2 && AllPlain(ts[..n])
    else if s == 52 then n >= 2 && AllPlain(ts[..n - 1]) && ts[n - 1] == NEWLINE
    else if s == 23 then n == 1 && ts[0] == NEWLINE
    else if s == 24 then n == 1 && IsQuote(ts[0])
    else if s == 25 then n == 1 && ts[0] == BACKSLASH
    else if s == 53 then n == 2 && ts[0] == BACKSLASH && ts[1] != NEWLINE
    else s == 54 && 2 <= n <= 3 && ts[0] == BACKSLASH && ts[n - 1] == NEWLINE && (n == 3 ==> ts[1] != NEWLINE)
  }

  /** The automaton stops where the longest match ends. */
  predicate Stuck(ts: string, s: nat, n: nat)
    requires n <= |ts|
  {
    n == |ts| || Next(s, Class(ts[n])) <= 0
  }

  // What each rule amounts to, character by character.

  lemma PrependTwice(a: string, b: string, o: Outcome)
    ensures Prepend(a, Prepend(b, o)) == Prepend(a + b, o)
  {
  }

  lemma PrependWord(a: string, t: string, rest: string)
    ensures Prepend(a, Word(t, rest)) == Word(a + t, rest)
  {
  }

  lemma {:induction false} PlainTail(ts: string, n: nat)
    requires 0 < n <= |ts| && AllPlain(ts[..n])
    ensures IsPlain(ts[0]) && AllPlain(ts[1..][..n - 1]) && ts[1..][n - 1..] == ts[n..]
    ensures [ts[0]] + ts[1..][..n - 1] == ts[..n]
  {
    assert IsPlain(ts[..n][0]) && ts[1..][..n - 1] == ts[..n][1..];
  }

  lemma {:induction false} PlainRun(q: char, ts: string, n: nat)
    requires IsQuote(q) && 0 < n <= |ts| && AllPlain(ts[..n])
    ensures n == |ts| || ts[n] != NEWLINE ==> ReadString(q, ts) == Prepend(ts[..n], ReadString(q, ts[n..]))
    ensures n < |ts| && ts[n] == NEWLINE ==> ReadString(q, ts) == Word(ts[..n], ts[n..])
  {
    hide AllPlain, Prepend;
    PlainTail(ts, n);
    PrependTwice([ts[0]], ts[1..][..n - 1], ReadString(q, ts[n..]));
    if n > 1 {
      PlainTail(ts[1..], n - 1);
      PlainRun(q, ts[1..], n - 1);
      PrependWord([ts[0]], ts[1..][..n - 1], ts[n..]);
    } else {
      assert ts[..1] == [ts[0]];
    }
  }

  lemma ReadBackslash(q: char, ts: string)
    requires IsQuote(q) && ts != [] && ts[0] == BACKSLASH
    ensures |ts| == 1 ==> ReadString(q, ts) == EndOfFile == ReadString(q, [])
    ensures |ts| > 1 && ts[1] == NEWLINE ==> ReadString(q, ts) == Word([], ts[1..])
    ensures |ts| > 2 && ts[1] != NEWLINE == ts[2] ==> ReadString(q, ts) == Word([ts[1]], ts[2..])
    ensures |ts| > 1 && ts[1] != NEWLINE && (|ts| > 2 ==> ts[2] != NEWLINE) ==>
      ReadString(q, ts) == Prepend([ts[1]], ReadString(q, ts[2..]))
  {
  }

  /** The matches that start with a backslash. */
  lemma {:induction false} EscapeMatch(q: char, ts: string, s: nat, n: nat)
    requires IsQuote(q) && n <= |ts| && Seen(ts, s, n) && Stuck(ts, s, n)
    requires s == 25 || s == 53 || s == 54
    ensures n > 0 && (s == 54 ==> n > 1)
    ensures s == 54 ==> ReadString(q, ts) == Word(ts[1..n - 1], ts[n - 1..])
    ensures s != 54 ==> ReadString(q, ts) == Prepend(ts[1..n], ReadString(q, ts[n..]))
  {
    hide AllPlain, IsPlain, ReadString;
    ReadBackslash(q, ts);
    if s == 54 {
      assert ts[1..1] == [] && ts[1..2] == [ts[1]];
    } else if s == 25 {
      assert ts[1..1] == [] && (|ts| == 1 ==> ts[1..] == []);
    } else {
      assert ts[1..2] == [ts[1]];
    }
  }

  lemma ReadQuoteOrNewline(q: char, ts: string)
    requires IsQuote(q) && (ts != [] ==> IsQuote(ts[0]) || ts[0] == NEWLINE)
    ensures ts == [] ==> ReadString(q, ts) == EndOfFile
    ensures ts != [] && ts[0] == NEWLINE ==> ReadString(q, ts) == EndOfLine(ts[1..])
    ensures ts != [] && ts[0] == q ==> ReadString(q, ts) == Word([], ts[1..])
    ensures ts != [] && ts[0] != NEWLINE && ts[0] != q ==> ReadString(q, ts) == Prepend([ts[0]], ReadString(q, ts[1..]))
  {
  }

  /** The matches of a quote, a newline or nothing. */
  lemma {:induction false} QuoteMatch(q: char, ts: string, s: nat, n: nat)
    requires IsQuote(q) && n <= |ts| && Seen(ts, s, n) && Stuck(ts, s, n)
    requires s == 7 || s == 23 || s == 24
    ensures if s == 7 then n == 0 else n == 1
    ensures s == 7 ==> ReadString(q, ts) == EndOfFile
    ensures s == 24 && ts[0] == q ==> ReadString(q, ts) == Word([], ts[1..])
    ensures s == 24 && ts[0] != q ==> ReadString(q, ts) == Prepend(ts[..1], ReadString(q, ts[1..]))
    ensures s == 23 ==> ReadString(q, ts) == EndOfLine(ts[1..])
  {
    hide AllPlain, Prepend, ReadString;
    ReadQuoteOrNewline(q, ts);
    if n > 0 {
      assert ts[..1] == [ts[0]];
    }
  }

  /** The matches that start with a plain character. */
  lemma {:induction false} PlainMatch(q: char, ts: string, s: nat, n: nat)
    requires IsQuote(q) && n <= |ts| && Seen(ts, s, n) && Stuck(ts, s, n)
    requires s == 22 || s == 51 || s == 52
    ensures n > 0
    ensures s == 52 ==> ReadString(q, ts) == Word(ts[..n - 1], ts[n - 1..])
    ensures s != 52 ==> ReadString(q, ts) == Prepend(ts[..n], ReadString(q, ts[n..]))
  {
    hide AllPlain, ReadString, Prepend;
    if s == 52 {
      PlainRun(q, ts, n - 1);
    } else {
      OnePlain(ts);
      PlainRun(q, ts, n);
    }
  }

  lemma OnePlain(ts: string)
    requires ts != []
    ensures AllPlain(ts[..1]) == IsPlain(ts[0])
  {
  }

  // ----- The scanner -----

  const START_SIZE: nat := 16

  class Scanner {
    var text: array<char>
    var size: nat
    /** The characters to come. */
    var input: string

    ghost predicate Valid()
      reads this`text, this`size, text
    {
      size + 1 <= text.Length && text[size] == '\0'
    }

    ghost function Contents(): string
      reads this`text, this`size, text
      requires Valid()
    {
      text[..size]
    }

    constructor (input: string)
      ensures Valid() && Contents() == [] && this.input == input && fresh(text)
    {
      text := new char[START_SIZE](_ => '\0');
      size := 0;
      this.input := input;
    }

    method NewString()
      modifies `text, `size
      ensures Valid() && Contents() == [] && fresh(text)
    {
      text := new char[START_SIZE](_ => '\0');
      size := 0;
    }

    /** Appends a string, after making room for it and the final zero if there is none. */
    method AppendString(s: string)
      requires Valid()
      modifies `text, `size, text
      ensures Valid() && Contents() == old(Contents()) + s
      ensures text == old(text) || (fresh(text) && text.Length % START_SIZE == 0)
    {
      var newSize := size + |s| + 1;
      if newSize > text.Length {
        newSize := (newSize + START_SIZE - 1) / START_SIZE * START_SIZE;
        text := new char[newSize](i requires 0 <= i reads this, text => if i < text.Length then text[i] else '\0');
      }
      label Copy:
      forall i | 0 <= i < |s| {
        text[size + i] := s[i];
      }
      assert text[..size + |s|] == old@Copy(text[..size]) + s;
      size := size + |s|;
      text[size] := '\0';
    }

    /** The longest match of one rule at the start of the input. */
    method Match() returns (s: nat, n: nat)
      ensures s == 7 || 22 <= s <= 25 || 51 <= s <= 54
      ensures n <= |input| && Seen(input, s, n) && Stuck(input, s, n)
    {
      s, n := 7, 0;
      while n < |input| && Next(s, Class(input[n])) > 0
        invariant n <= |input| && Seen(input, s, n)
      {
        s := Next(s, Class(input[n]));
        n := n + 1;
      }
    }

    /** Scans the rest of a string after its opening quote. */
    method ReadWord(q: char) returns (o: Outcome)
      requires IsQuote(q)
      modifies this
      ensures Valid() && o == ReadString(q, old(input))
      ensures o.Word? ==> Contents() == o.text
      ensures !o.EndOfFile? ==> input == o.rest
    {
      hide ReadString, AllPlain, Seen, Stuck;
      NewString();
      while true
        invariant Valid() && fresh(text)
        invariant ReadString(q, old(input)) == Prepend(Contents(), ReadString(q, input))
        decreases |input|
      {
        var s, n := Match();
        if s == 22 || s == 51 || s == 52 {
          PlainMatch(q, input, s, n);
        } else if s == 25 || s == 53 || s == 54 {
          EscapeMatch(q, input, s, n);
        } else {
          QuoteMatch(q, input, s, n);
        }
        var ts := input;
        input := input[n..];
        if n == 0 {
          o := EndOfFile;
          return;
        }
        PrependTwice(Contents(), if Accept(s) == 30 then ts[1..n] else ts[..n], ReadString(q, input));
        var rule := Accept(s);
        if rule == 27 || rule == 29 {
          // the newline that ends the match is read again
          input := ts[n - 1..];
          AppendString(if rule == 27 then ts[..n - 1] else ts[1..n - 1]);
          o := Word(text[..size], input);
          return;
        } else if rule == 28 {
          AppendString(ts[..n]);
        } else if rule == 30 {
          AppendString(ts[1..n]);
        } else if rule == 31 {
          if ts[0] == q {
            o := Word(text[..size], input);
            return;
          }
          AppendString(ts[..1]);
        } else {
          o := EndOfLine(input);
          return;
        }
      }
    }
  }
}
