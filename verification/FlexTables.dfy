/** The compressed tables of a generated scanner, the automaton they encode, and what it
    means for a prefix of the input to be the longest match. */
module FlexTables {
  import opened Types
  import opened Wrappers

  /** The generated arrays, with the state whose base marks the end of a match (jam). */
  datatype Tables = Tables(
    accept: seq<nat>, ec: seq<nat>, meta: seq<nat>,
    base: seq<nat>, def: seq<nat>, nxt: seq<nat>, chk: seq<nat>,
    jam: nat, endOfBuffer: nat, endRule: nat)

  /** The number of classes and the longest chain of default states in a table lookup. */
  const CLASSES: nat := 29
  const CHAIN: nat := 8

  /** The lookup of a transition through at most fuel default states; no value if an index is
      out of range or the chain is longer. */
  function Lookup(t: Tables, s: nat, c: nat, fuel: nat): Option<nat>
    decreases fuel
  {
    if fuel == 0 || s >= |t.base| || s >= |t.def| || t.base[s] + c >= |t.chk| || t.base[s] + c >= |t.nxt| then None
    else if t.chk[t.base[s] + c] == s then Some(t.nxt[t.base[s] + c])
    else if t.def[s] < |t.accept| then Lookup(t, t.def[s], c, fuel - 1)
    else if c < |t.meta| then Lookup(t, t.def[s], t.meta[c], fuel - 1)
    else None
  }

  /** The states of the automaton proper: neither the jam state nor the end-of-buffer state. */
  ghost predicate Live(t: Tables, s: nat) {
    0 < s < |t.accept| && s != t.jam && s != t.endOfBuffer
  }

  /** No transition leaves the state, so a match that enters it is over. */
  ghost predicate Ends(t: Tables, s: nat)
    requires t.jam < |t.base| && s < |t.base|
  {
    t.base[s] == t.base[t.jam]
  }

  ghost predicate Shape(t: Tables) {
    && |t.ec| == 256 && |t.accept| <= |t.base|
    && 0 < t.jam < |t.accept| && 0 < t.endOfBuffer < |t.accept| && t.jam != t.endOfBuffer
    && Live(t, 1) && Live(t, 2)
    && t.ec[0] == 0 && (forall b: Byte :: b > 0 ==> 0 < t.ec[b] < CLASSES)
  }

  ghost predicate Steps(t: Tables)
    requires Shape(t)
  {
    // a real character leads to a live state or jams, and jams where no transition is left
    && (forall s: nat, c: nat :: Live(t, s) && 0 < c < CLASSES ==>
          var n := Lookup(t, s, c, CHAIN);
          n.Some? && (Live(t, n.value) || n.value == t.jam) && (Ends(t, s) ==> n.value == t.jam))
    // an end-of-buffer character leads to the end-of-buffer state, where the next one jams
    && (forall s: nat :: Live(t, s) ==> Lookup(t, s, 0, CHAIN) == Some(t.endOfBuffer))
    && (forall c: nat :: c < CLASSES ==> Lookup(t, t.endOfBuffer, c, CHAIN) == Some(t.jam))
    && !Ends(t, t.endOfBuffer)
  }

  ghost predicate Accepts(t: Tables)
    requires Shape(t)
  {
    && t.accept[t.jam] == 0 && t.accept[t.endOfBuffer] == t.endRule && t.endRule > 0
    && (forall s: nat :: Live(t, s) ==> t.accept[s] != t.endRule)
    // in the two start states nothing is matched yet, and any one character matches some rule
    && (forall s: nat :: s == 1 || s == 2 ==> t.accept[s] == 0 && !Ends(t, s))
    && (forall s: nat, c: nat :: (s == 1 || s == 2) && 0 < c < CLASSES ==>
          var n := Lookup(t, s, c, CHAIN); n.Some? && n.value < |t.accept| && t.accept[n.value] != 0)
  }

  /** What the generator guarantees of its tables. */
  ghost predicate WellFormed(t: Tables) {
    Shape(t) && Steps(t) && Accepts(t)
  }

  // ----- The automaton -----

  /** The class of an input character; a NUL in the input is an ordinary character. */
  function Class(t: Tables, b: Byte): (c: nat)
    requires WellFormed(t)
    ensures 0 < c < CLASSES
  {
    if b == 0 then 1 else t.ec[b]
  }

  function Step(t: Tables, s: nat, c: nat): (n: nat)
    requires WellFormed(t) && 0 < c < CLASSES && (Live(t, s) || s == t.jam)
    ensures Live(t, n) || n == t.jam
    ensures s == t.jam || Ends(t, s) ==> n == t.jam
  {
    if s == t.jam then t.jam else Lookup(t, s, c, CHAIN).value
  }

  lemma StepLookup(t: Tables, s: nat, c: nat)
    requires WellFormed(t) && 0 < c < CLASSES && Live(t, s)
    ensures Lookup(t, s, c, CHAIN) == Some(Step(t, s, c))
  {
  }

  lemma AtNul(t: Tables, s: nat)
    requires WellFormed(t) && Live(t, s)
    ensures t.ec[0] == 0 && Lookup(t, s, 0, CHAIN) == Some(t.endOfBuffer) && !Ends(t, t.endOfBuffer)
  {
  }

  lemma AtEndOfBuffer(t: Tables, c: nat)
    requires WellFormed(t) && c < CLASSES
    ensures Lookup(t, t.endOfBuffer, c, CHAIN) == Some(t.jam) && t.accept[t.endOfBuffer] != 0
  {
  }

  function Start(bol: bool): nat {
    if bol then 2 else 1
  }

  /** The state after the first k characters of the input. */
  function RunTo(t: Tables, s: nat, input: seq<Byte>, k: nat): (n: nat)
    requires WellFormed(t) && Live(t, s) && k <= |input|
    ensures Live(t, n) || n == t.jam
  {
    if k == 0 then s else Step(t, RunTo(t, s, input, k - 1), Class(t, input[k - 1]))
  }

  /** The rule matched by the first k characters; zero if none. */
  function RuleAt(t: Tables, bol: bool, input: seq<Byte>, k: nat): nat
    requires WellFormed(t) && k <= |input|
  {
    t.accept[RunTo(t, Start(bol), input, k)]
  }

  /** The first n characters match a rule, and no longer prefix does. */
  ghost predicate Longest(t: Tables, bol: bool, input: seq<Byte>, n: nat)
    requires WellFormed(t)
  {
    && 0 < n <= |input| && RuleAt(t, bol, input, n) != 0
    && forall k :: n < k <= |input| ==> RuleAt(t, bol, input, k) == 0
  }

  /** State s, reached after k characters, is the longest match of fewer than len characters. */
  ghost predicate OnRecord(t: Tables, bol: bool, input: seq<Byte>, len: nat, s: nat, k: int)
    requires WellFormed(t) && len <= |input|
  {
    len >= 2 ==>
      && 0 < k < len && s == RunTo(t, Start(bol), input, k) && RuleAt(t, bol, input, k) != 0
      && forall j :: k < j < len ==> RuleAt(t, bol, input, j) == 0
  }

  lemma NothingOnRecord(t: Tables, bol: bool, input: seq<Byte>, s: nat, k: int)
    requires WellFormed(t)
    ensures OnRecord(t, bol, input, 0, s, k)
  {
  }

  /** Recording the state after len characters, if it matches, keeps the record. */
  lemma {:induction false} RecordGrows(t: Tables, bol: bool, input: seq<Byte>, len: nat, s: nat, k: int, now: nat)
    requires WellFormed(t) && len < |input| && OnRecord(t, bol, input, len, s, k)
    requires now == RunTo(t, Start(bol), input, len)
    ensures if t.accept[now] != 0 then OnRecord(t, bol, input, len + 1, now, len)
            else OnRecord(t, bol, input, len + 1, s, k)
  {
    hide Steps, Lookup;
    FirstCharacterMatches(t, bol, input);
  }

  lemma LongestUnique(t: Tables, bol: bool, input: seq<Byte>, n: nat, n': nat)
    requires WellFormed(t) && Longest(t, bol, input, n) && Longest(t, bol, input, n')
    ensures n == n'
  {
  }

  /** Once a match can only end, every longer prefix jams. */
  lemma {:induction false} EndedStaysJammed(t: Tables, s: nat, input: seq<Byte>, k: nat, k': nat)
    requires WellFormed(t) && Live(t, s) && k < k' <= |input|
    requires RunTo(t, s, input, k) == t.jam || Ends(t, RunTo(t, s, input, k))
    ensures RunTo(t, s, input, k') == t.jam
  {
    hide Shape, Steps, Accepts, Lookup;
    if k + 1 < k' {
      EndedStaysJammed(t, s, input, k, k' - 1);
    }
  }

  /** The run on a prefix does not depend on what follows it. */
  lemma {:induction false} RunOfPrefix(t: Tables, s: nat, x: seq<Byte>, y: seq<Byte>, k: nat)
    requires WellFormed(t) && Live(t, s) && k <= |x| && x <= y
    ensures RunTo(t, s, x, k) == RunTo(t, s, y, k)
  {
    hide Shape, Steps, Accepts, Lookup, Live;
    if k > 0 {
      RunOfPrefix(t, s, x, y, k - 1);
    }
  }

  lemma {:induction false} FirstCharacterMatches(t: Tables, bol: bool, input: seq<Byte>)
    requires WellFormed(t) && |input| > 0
    ensures RuleAt(t, bol, input, 1) != 0
  {
    assert RunTo(t, Start(bol), input, 0) == Start(bol);
  }

  // ----- Scanning a whole input -----

  datatype Token = Token(rule: nat, text: seq<Byte>)

  /** The longest matching prefix of at most n characters; zero if there is none. */
  function LastMatch(t: Tables, bol: bool, input: seq<Byte>, n: nat): (k: nat)
    requires WellFormed(t) && n <= |input|
    ensures k <= n
    ensures k > 0 ==> RuleAt(t, bol, input, k) != 0
    ensures forall j :: k < j <= n ==> RuleAt(t, bol, input, j) == 0
  {
    hide Shape, Steps, Accepts, Lookup, RunTo;
    if n == 0 || RuleAt(t, bol, input, n) != 0 then n else LastMatch(t, bol, input, n - 1)
  }

  function MatchLength(t: Tables, bol: bool, input: seq<Byte>): (n: nat)
    requires WellFormed(t) && |input| > 0
    ensures Longest(t, bol, input, n)
  {
    FirstCharacterMatches(t, bol, input);
    LastMatch(t, bol, input, |input|)
  }

  /** Whether the character after a token starts a line. */
  predicate AfterNewline(text: seq<Byte>)
    requires |text| > 0
  {
    text[|text| - 1] == 10
  }

  /** Longest-match scanning of a whole input. */
  function Tokens(t: Tables, bol: bool, input: seq<Byte>): seq<Token>
    requires WellFormed(t)
    decreases |input|
  {
    if input == [] then []
    else
      var n := MatchLength(t, bol, input);
      [Token(RuleAt(t, bol, input, n), input[..n])] + Tokens(t, AfterNewline(input[..n]), input[n..])
  }

  lemma NoTokens(t: Tables, bol: bool)
    requires WellFormed(t)
    ensures Tokens(t, bol, []) == []
  {
  }

  /** A token that is the longest match is the first token of the scan. */
  lemma {:induction false} NextToken(t: Tables, bol: bool, input: seq<Byte>, token: Token)
    requires WellFormed(t) && 0 < |token.text| <= |input| && Longest(t, bol, input, |token.text|)
    requires token == Token(RuleAt(t, bol, input, |token.text|), input[..|token.text|])
    ensures Tokens(t, bol, input) ==
            [token] + Tokens(t, AfterNewline(token.text), input[|token.text|..])
  {
    hide Steps, Accepts, Lookup, RuleAt;
    LongestUnique(t, bol, input, |token.text|, MatchLength(t, bol, input));
  }
}
