/** The keyword tables of the two scanners, searched with one hash and one comparison. */
module KeywordHash {
  import opened Wrappers

  // ----- The genksyms keywords -----

  /** The association values of the bytes. */
  function Asso(i: nat): nat
    requires i < 256
  {
    if i < 119 then (if i < 69 then 101 else (if i < 95 then (if i < 81 then (if i < 76 then (if i < 70 then 0
    else 101) else (if i < 77 then 15 else (if i < 80 then 101 else 0))) else 101) else (if i < 106 then (if i
    < 100 then (if i < 97 then (if i < 96 then 0 else 101) else (if i < 98 then 0 else (if i < 99 then 101 else
    5))) else (if i < 103 then (if i < 101 then 25 else (if i < 102 then 20 else 55)) else (if i < 104 then 30
    else (if i < 105 then 101 else 15)))) else (if i < 112 then (if i < 109 then (if i < 108 then 101 else 10)
    else (if i < 110 then 0 else (if i < 111 then 10 else 40))) else (if i < 115 then (if i < 113 then 10 else
    (if i < 114 then 101 else 10)) else (if i < 117 then (if i < 116 then 5 else 0) else (if i < 118 then 10
    else 15))))))) else 101
  }

  /** The words; the empty string stands where there is none. */
  function Word(i: nat): string
    requires i < 101
  {
    if i < 50 then (if i < 25 then (if i < 12 then (if i < 6 then (if i < 3 then "" else (if i < 4 then "asm"
    else (if i < 5 then "" else "__asm"))) else (if i < 8 then (if i < 7 then "" else "__asm__") else (if i <
    10 then "" else (if i < 11 then "__typeof__" else "")))) else (if i < 18 then (if i < 15 then (if i < 13
    then "__const" else (if i < 14 then "__attribute__" else "__const__")) else (if i < 16 then "__signed__"
    else (if i < 17 then "static" else ""))) else (if i < 21 then (if i < 19 then "int" else (if i < 20 then
    "char" else "const")) else (if i < 23 then (if i < 22 then "struct" else "__restrict__") else (if i < 24
    then "restrict" else "EXPORT_SYMBOL_GPL_FUTURE"))))) else (if i < 37 then (if i < 31 then (if i < 28 then
    (if i < 26 then "__inline__" else (if i < 27 then "" else "__volatile__")) else (if i < 29 then
    "EXPORT_SYMBOL" else (if i < 30 then "_restrict" else ""))) else (if i < 34 then (if i < 32 then
    "__attribute" else (if i < 33 then "EXPORT_SYMBOL_GPL" else "__extension__")) else (if i < 35 then "enum"
    else (if i < 36 then "EXPORT_UNUSED_SYMBOL" else "extern")))) else (if i < 43 then (if i < 40 then (if i <
    38 then "" else (if i < 39 then "__signed" else "EXPORT_UNUSED_SYMBOL_GPL")) else (if i < 41 then "union"
    else "")) else (if i < 46 then (if i < 44 then "__inline" else (if i < 45 then "auto" else "__volatile"))
    else (if i < 48 then "" else (if i < 49 then "unsigned" else "")))))) else (if i < 73 then (if i < 61 then
    (if i < 55 then (if i < 52 then (if i < 51 then "short" else "inline") else (if i < 53 then "" else (if i <
    54 then "volatile" else "long"))) else (if i < 58 then (if i < 56 then "_Bool" else "") else (if i < 59
    then "register" else (if i < 60 then "void" else "")))) else (if i < 67 then (if i < 64 then (if i < 62
    then "double" else (if i < 63 then "" else "__typeof")) else (if i < 66 then "" else "signed")) else (if i
    < 71 then "" else (if i < 72 then "typeof" else "typedef")))) else (if i < 100 then "" else "float"))
  }

  /** The tokens of the words. */
  function Token(i: nat): nat
    requires i < 101
  {
    if i < 50 then (if i < 25 then (if i < 12 then (if i < 6 then (if i < 3 then 0 else (if i < 4 then 258 else
    (if i < 5 then 0 else 258))) else (if i < 8 then (if i < 7 then 0 else 258) else (if i < 10 then 0 else (if
    i < 11 then 283 else 0)))) else (if i < 18 then (if i < 15 then (if i < 13 then 263 else (if i < 14 then
    259 else 263)) else (if i < 16 then 275 else (if i < 17 then 276 else 0))) else (if i < 21 then (if i < 19
    then 270 else (if i < 20 then 262 else 263)) else (if i < 22 then 277 else (if i < 24 then 273 else
    284))))) else (if i < 37 then (if i < 31 then (if i < 28 then (if i < 26 then 269 else (if i < 27 then 0
    else 282)) else (if i < 29 then 284 else (if i < 30 then 273 else 0))) else (if i < 34 then (if i < 32 then
    259 else (if i < 33 then 284 else 267)) else (if i < 35 then 265 else (if i < 36 then 284 else 266)))) else
    (if i < 43 then (if i < 40 then (if i < 38 then 0 else (if i < 39 then 275 else 284)) else (if i < 41 then
    279 else 0)) else (if i < 46 then (if i < 44 then 269 else (if i < 45 then 260 else 282)) else (if i < 48
    then 0 else (if i < 49 then 280 else 0)))))) else (if i < 73 then (if i < 61 then (if i < 55 then (if i <
    52 then (if i < 51 then 274 else 269) else (if i < 53 then 0 else (if i < 54 then 282 else 271))) else (if
    i < 58 then (if i < 56 then 261 else 0) else (if i < 59 then 272 else (if i < 60 then 281 else 0)))) else
    (if i < 67 then (if i < 64 then (if i < 62 then 264 else (if i < 63 then 0 else 283)) else (if i < 66 then
    0 else 275)) else (if i < 71 then 0 else (if i < 72 then 283 else 278)))) else (if i < 100 then 0 else
    268))
  }

  /** is_reserved_hash */
  function Hash(s: string): nat
    requires |s| >= 3
  {
    |s| + AssoOf(s[2]) + AssoOf(s[0]) + AssoOf(s[|s| - 1])
  }

  function AssoOf(c: char): nat {
    if c as int < 256 then Asso(c as int) else 101
  }

  /** The comparison of the first characters and of the rest. */
  predicate SameString(s: string, w: string)
    requires s != []
  {
    w != [] && s[0] == w[0] && s[1..] == w[1..]
  }

  /** is_reserved_word: the number of the entry found. */
  function Lookup(s: string): Option<nat> {
    if 3 <= |s| <= 24 then
      var key := Hash(s);
      if key <= 100 && SameString(s, Word(key)) then Some(key) else None
    else None
  }

  // Each word is where its hash says.

  lemma HashPerfectLowest()
    ensures forall k: nat :: k < 14 && Word(k) != [] ==> 3 <= |Word(k)| <= 24 && Hash(Word(k)) == k
  {
  }

  lemma HashPerfectLow()
    ensures forall k: nat :: 14 <= k < 28 && Word(k) != [] ==> 3 <= |Word(k)| <= 24 && Hash(Word(k)) == k
  {
  }

  lemma HashPerfectMiddle()
    ensures forall k: nat :: 28 <= k < 38 && Word(k) != [] ==> 3 <= |Word(k)| <= 24 && Hash(Word(k)) == k
  {
  }

  lemma HashPerfectUpper()
    ensures forall k: nat :: 38 <= k < 50 && Word(k) != [] ==> 3 <= |Word(k)| <= 24 && Hash(Word(k)) == k
  {
  }

  lemma HashPerfectHigh()
    ensures forall k: nat :: 50 <= k < 101 && Word(k) != [] ==> 3 <= |Word(k)| <= 24 && Hash(Word(k)) == k
  {
  }

  lemma SameStringMeans(s: string, w: string)
    requires s != []
    ensures SameString(s, w) <==> s == w
  {
  }

  /** The lookup finds exactly the words of the table, each at its own entry. */
  lemma {:induction false} LookupExactly(s: string, k: nat)
    ensures Lookup(s) == Some(k) <==> s != [] && k < 101 && Word(k) == s
  {
    hide Word, Asso, SameString, Hash;
    HashPerfectLowest();
    HashPerfectLow();
    HashPerfectMiddle();
    HashPerfectUpper();
    HashPerfectHigh();
    if |s| >= 3 && Hash(s) <= 100 {
      SameStringMeans(s, Word(Hash(s)));
    }
  }

  /** The words with their tokens. */
  ghost predicate Keywords(reserved: map<string, nat>) {
    && (forall k: nat :: k < 101 && Word(k) != [] ==> Word(k) in reserved && reserved[Word(k)] == Token(k))
    && (forall w :: w in reserved ==> exists k: nat :: k < 101 && Word(k) == w != [])
  }

  /** Asking the map of the keywords is the same as searching the table. */
  lemma {:induction false} LookupIsMap(reserved: map<string, nat>, s: string)
    requires Keywords(reserved)
    ensures s in reserved <==> Lookup(s).Some?
    ensures Lookup(s).Some? ==> Lookup(s).value < 101 && reserved[s] == Token(Lookup(s).value)
  {
    hide Word, Token, Lookup;
    if s in reserved {
      var k: nat :| k < 101 && Word(k) == s != [];
      LookupExactly(s, k);
    } else if Lookup(s).Some? {
      LookupExactly(s, Lookup(s).value);
    }
  }

  /** No word stands twice. */
  lemma {:induction false} WordsDistinct()
    ensures forall j: nat, k: nat :: j < 101 && k < 101 && Word(j) == Word(k) != [] ==> j == k
  {
    hide Word, Lookup;
    forall j: nat, k: nat | j < 101 && k < 101 && Word(j) == Word(k) != [] ensures j == k {
      LookupExactly(Word(j), j);
      LookupExactly(Word(j), k);
    }
  }

  /** The first n words with their tokens. */
  function ReservedUpTo(n: nat): map<string, nat>
    requires n <= 101
  {
    if n == 0 then map[]
    else if Word(n - 1) == [] then ReservedUpTo(n - 1)
    else ReservedUpTo(n - 1)[Word(n - 1) := Token(n - 1)]
  }

  function Reserved(): map<string, nat> {
    ReservedUpTo(101)
  }

  lemma {:induction false} ReservedUpToMeans(n: nat)
    requires n <= 101
    ensures forall k: nat :: k < n && Word(k) != [] ==>
      Word(k) in ReservedUpTo(n) && ReservedUpTo(n)[Word(k)] == Token(k)
    ensures forall w :: w in ReservedUpTo(n) ==> exists k: nat :: k < n && Word(k) == w != []
  {
    hide Word, Token;
    WordsDistinct();
    if n > 0 {
      ReservedUpToMeans(n - 1);
    }
  }

  lemma {:induction false} ReservedKeywords()
    ensures Keywords(Reserved())
  {
    hide Word, Token, ReservedUpTo;
    ReservedUpToMeans(101);
  }

  /** The keywords, by their tokens. */
  function Words(token: int): set<string> {
    match token
    case 258 => {"asm", "__asm", "__asm__"}
    case 259 => {"__attribute", "__attribute__"}
    case 260 => {"auto"}
    case 261 => {"_Bool"}
    case 262 => {"char"}
    case 263 => {"const", "__const", "__const__"}
    case 264 => {"double"}
    case 265 => {"enum"}
    case 266 => {"extern"}
    case 267 => {"__extension__"}
    case 268 => {"float"}
    case 269 => {"inline", "__inline", "__inline__"}
    case 270 => {"int"}
    case 271 => {"long"}
    case 272 => {"register"}
    case 273 => {"restrict", "_restrict", "__restrict__"}
    case 274 => {"short"}
    case 275 => {"signed", "__signed", "__signed__"}
    case 276 => {"static"}
    case 277 => {"struct"}
    case 278 => {"typedef"}
    case 279 => {"union"}
    case 280 => {"unsigned"}
    case 281 => {"void"}
    case 282 => {"volatile", "__volatile", "__volatile__"}
    case 283 => {"typeof", "__typeof", "__typeof__"}
    case 284 => {"EXPORT_SYMBOL", "EXPORT_SYMBOL_GPL", "EXPORT_UNUSED_SYMBOL", "EXPORT_SYMBOL_GPL_FUTURE",
        "EXPORT_UNUSED_SYMBOL_GPL"}
    case _ => {}
  }

  lemma {:induction false} TokenOfWordLowest(k: nat)
    requires 0 <= k < 20 && Word(k) != []
    ensures Word(k) in Words(Token(k)) && forall c :: Word(k) in Words(c) ==> c == Token(k)
  {
  }

  lemma {:induction false} TokenOfWordLow(k: nat)
    requires 20 <= k < 32 && Word(k) != []
    ensures Word(k) in Words(Token(k)) && forall c :: Word(k) in Words(c) ==> c == Token(k)
  {
  }

  lemma {:induction false} TokenOfWordMiddle(k: nat)
    requires 32 <= k < 45 && Word(k) != []
    ensures Word(k) in Words(Token(k)) && forall c :: Word(k) in Words(c) ==> c == Token(k)
  {
  }

  lemma {:induction false} TokenOfWordUpper(k: nat)
    requires 45 <= k < 60 && Word(k) != []
    ensures Word(k) in Words(Token(k)) && forall c :: Word(k) in Words(c) ==> c == Token(k)
  {
  }

  lemma {:induction false} TokenOfWordHigh(k: nat)
    requires 60 <= k < 101 && Word(k) != []
    ensures Word(k) in Words(Token(k)) && forall c :: Word(k) in Words(c) ==> c == Token(k)
  {
  }

  // Each of these words is in the table.

  lemma {:induction false} WordInTableLow(w: string, c: int)
    requires w in Words(c) && 258 <= c < 272
    ensures exists k: nat :: k < 101 && Word(k) == w != [] && Token(k) == c
  {
    var k: nat :=
      match c
      case 258 => if w == Word(3) then 3 else if w == Word(5) then 5 else 7
      case 259 => if w == Word(13) then 13 else 31
      case 260 => 44
      case 261 => 55
      case 262 => 19
      case 263 => if w == Word(12) then 12 else if w == Word(14) then 14 else 20
      case 264 => 61
      case 265 => 34
      case 266 => 36
      case 267 => 33
      case 268 => 100
      case 269 => if w == Word(25) then 25 else if w == Word(43) then 43 else 51
      case 270 => 18
      case _ => 54;
    assert Word(k) == w != [] && Token(k) == c;
  }

  lemma {:induction false} WordInTableMiddle(w: string, c: int)
    requires w in Words(c) && 272 <= c < 280
    ensures exists k: nat :: k < 101 && Word(k) == w != [] && Token(k) == c
  {
    var k: nat :=
      match c
      case 272 => 58
      case 273 => if w == Word(22) then 22 else if w == Word(23) then 23 else 29
      case 274 => 50
      case 275 => if w == Word(15) then 15 else if w == Word(38) then 38 else 66
      case 276 => 16
      case 277 => 21
      case 278 => 72
      case _ => 40;
    assert Word(k) == w != [] && Token(k) == c;
  }

  lemma {:induction false} WordInTableHigh(w: string, c: int)
    requires w in Words(c) && 280 <= c < 285
    ensures exists k: nat :: k < 101 && Word(k) == w != [] && Token(k) == c
  {
    var k: nat :=
      match c
      case 280 => 48
      case 281 => 59
      case 282 => if w == Word(27) then 27 else if w == Word(45) then 45 else 53
      case 283 => if w == Word(10) then 10 else if w == Word(63) then 63 else 71
      case _ => if w == Word(24) then 24 else if w == Word(28) then 28 else if w == Word(32) then 32
          else if w == Word(35) then 35 else 39;
    assert Word(k) == w != [] && Token(k) == c;
  }

  /** Which words the hash finds, and with which tokens. */
  lemma {:induction false} LookupFinds(w: string, c: int)
    ensures w in Words(c) <==> Lookup(w).Some? && Lookup(w).value < 101 && Token(Lookup(w).value) == c
  {
    hide Word, Token, Lookup, Words;
    if w in Words(c) {
      TokensInRange(w, c);
      if c < 272 {
        WordInTableLow(w, c);
      } else if c < 280 {
        WordInTableMiddle(w, c);
      } else {
        WordInTableHigh(w, c);
      }
      var k: nat :| k < 101 && Word(k) == w != [] && Token(k) == c;
      LookupExactly(w, k);
    }
    if Lookup(w).Some? {
      var k := Lookup(w).value;
      LookupExactly(w, k);
      TokenOfWord(k);
    }
  }

  lemma TokensInRange(w: string, c: int)
    requires w in Words(c)
    ensures 258 <= c < 285
  {
  }

  lemma {:induction false} TokenOfWord(k: nat)
    requires k < 101 && Word(k) != []
    ensures Word(k) in Words(Token(k)) && forall c :: Word(k) in Words(c) ==> c == Token(k)
  {
    hide Word, Token, Words;
    if k < 20 {
      TokenOfWordLowest(k);
    } else if k < 32 {
      TokenOfWordLow(k);
    } else if k < 45 {
      TokenOfWordMiddle(k);
    } else if k < 60 {
      TokenOfWordUpper(k);
    } else {
      TokenOfWordHigh(k);
    }
  }

  // ----- The kconfig keywords -----

  /** The association values of the bytes, for the kconfig keywords. */
  function KconfAsso(i: nat): nat
    requires i < 256
  {
    if i < 122 then (if i < 46 then (if i < 45 then 73 else 0) else (if i < 97 then 73 else (if i < 109 then
    (if i < 103 then (if i < 100 then (if i < 98 then 5 else 25) else 0) else (if i < 106 then (if i < 104 then
    5 else 0) else (if i < 108 then 73 else 5))) else (if i < 114 then (if i < 111 then (if i < 110 then 0 else
    10) else (if i < 112 then 5 else (if i < 113 then 45 else 73))) else (if i < 117 then (if i < 116 then 20
    else 0) else (if i < 119 then 15 else (if i < 120 then 73 else (if i < 121 then 20 else 5)))))))) else 73
  }

  /** The kconfig words; the empty string stands where there is none. */
  function KconfWord(i: nat): string
    requires i < 73
  {
    if i < 36 then (if i < 18 then (if i < 9 then (if i < 4 then (if i < 2 then "" else (if i < 3 then "if"
    else "int")) else (if i < 6 then (if i < 5 then "" else "endif") else (if i < 7 then "" else (if i < 8 then
    "default" else "tristate")))) else (if i < 13 then (if i < 11 then (if i < 10 then "endchoice" else
    "---help---") else (if i < 12 then "" else "def_tristate")) else (if i < 15 then (if i < 14 then "def_bool"
    else "defconfig_list") else (if i < 17 then "" else "on")))) else (if i < 27 then (if i < 22 then (if i <
    19 then "optional" else (if i < 21 then "" else "option")) else (if i < 24 then (if i < 23 then "endmenu"
    else "mainmenu") else (if i < 25 then "" else (if i < 26 then "menuconfig" else "")))) else (if i < 31 then
    (if i < 29 then (if i < 28 then "modules" else "allnoconfig_y") else (if i < 30 then "menu" else "")) else
    (if i < 33 then (if i < 32 then "select" else "comment") else (if i < 34 then "env" else (if i < 35 then ""
    else "range")))))) else (if i < 54 then (if i < 44 then (if i < 40 then (if i < 37 then "choice" else (if i
    < 39 then "" else "bool")) else (if i < 42 then (if i < 41 then "" else "source") else (if i < 43 then
    "visible" else "hex"))) else (if i < 48 then (if i < 46 then "" else (if i < 47 then "config" else
    "boolean")) else (if i < 51 then "" else (if i < 52 then "string" else "")))) else (if i < 57 then (if i <
    55 then "help" else (if i < 56 then "" else "prompt")) else (if i < 72 then "" else "depends")))
  }

  /** kconf_id_hash; a word of two characters has no third to add. */
  function KconfHash(s: string): nat
    requires |s| >= 2
  {
    |s| + (if |s| == 2 then 0 else KconfAssoOf(s[2])) + KconfAssoOf(s[0]) + KconfAssoOf(s[|s| - 1])
  }

  function KconfAssoOf(c: char): nat {
    if c as int < 256 then KconfAsso(c as int) else 73
  }

  /** Equal in the first character, equal in the n - 1 that follow, and no longer than n. */
  predicate SameWord(s: string, w: string)
    requires s != []
  {
    w != [] && s[0] == w[0] && |w| >= |s| && s[1..] == w[1..|s|] && |w| == |s|
  }

  /** kconf_id_lookup: the number of the entry found. */
  function KconfLookup(s: string): Option<nat> {
    if 2 <= |s| <= 14 then
      var key := KconfHash(s);
      if key <= 72 && KconfWord(key) != [] && SameWord(s, KconfWord(key)) then Some(key) else None
    else None
  }

  lemma KconfHashPerfectLow()
    ensures forall k: nat :: k < 25 && KconfWord(k) != [] ==> 2 <= |KconfWord(k)| <= 14 && KconfHash(KconfWord(k)) == k
  {
  }

  lemma KconfHashPerfectHigh()
    ensures forall k: nat :: 25 <= k < 73 && KconfWord(k) != [] ==>
      2 <= |KconfWord(k)| <= 14 && KconfHash(KconfWord(k)) == k
  {
  }

  lemma SameWordMeans(s: string, w: string)
    requires s != []
    ensures SameWord(s, w) <==> s == w
  {
  }

  /** The same for the kconfig keywords. */
  lemma {:induction false} KconfLookupExactly(s: string, k: nat)
    ensures KconfLookup(s) == Some(k) <==> s != [] && k < 73 && KconfWord(k) == s
  {
    hide KconfWord, KconfAsso, SameWord, KconfHash;
    KconfHashPerfectLow();
    KconfHashPerfectHigh();
    if |s| >= 2 && KconfHash(s) <= 72 {
      SameWordMeans(s, KconfWord(KconfHash(s)));
    }
  }

  // The kconfig keywords, written out.

  const KCONF_COMMANDS: set<string> := {
    "---help---", "choice", "comment", "config", "default", "depends", "endchoice", "endif", "endmenu", "help",
    "if", "mainmenu", "menu", "menuconfig", "on", "option", "optional", "prompt", "range", "select", "source",
    "visible"
  }

  const KCONF_OPTIONS: set<string> := {
    "tristate", "def_tristate", "bool", "boolean", "def_bool", "int", "hex", "string", "modules",
    "defconfig_list", "env", "allnoconfig_y"
  }

  lemma {:induction false} KconfWordListed(k: nat)
    requires k < 73 && KconfWord(k) != []
    ensures KconfWord(k) in KCONF_COMMANDS || KconfWord(k) in KCONF_OPTIONS
  {
  }

  lemma {:induction false} KconfCommand(w: string)
    requires w in KCONF_COMMANDS
    ensures exists k: nat :: k < 73 && KconfWord(k) == w != []
  {
    var k: nat :=
      if w == KconfWord(10) then 10 else if w == KconfWord(36) then 36 else if w == KconfWord(32) then 32 else
      if w == KconfWord(46) then 46 else if w == KconfWord(7) then 7 else if w == KconfWord(72) then 72 else if
      w == KconfWord(9) then 9 else if w == KconfWord(5) then 5 else if w == KconfWord(22) then 22 else if w ==
      KconfWord(54) then 54 else if w == KconfWord(2) then 2 else if w == KconfWord(23) then 23 else if w ==
      KconfWord(29) then 29 else if w == KconfWord(25) then 25 else if w == KconfWord(17) then 17 else if w ==
      KconfWord(21) then 21 else if w == KconfWord(18) then 18 else if w == KconfWord(56) then 56 else if w ==
      KconfWord(35) then 35 else if w == KconfWord(31) then 31 else if w == KconfWord(41) then 41 else 42;
    assert KconfWord(k) == w != [];
  }

  lemma {:induction false} KconfOption(w: string)
    requires w in KCONF_OPTIONS
    ensures exists k: nat :: k < 73 && KconfWord(k) == w != []
  {
    var k: nat :=
      if w == KconfWord(8) then 8 else if w == KconfWord(12) then 12 else if w == KconfWord(39) then 39 else if
      w == KconfWord(47) then 47 else if w == KconfWord(13) then 13 else if w == KconfWord(3) then 3 else if w
      == KconfWord(43) then 43 else if w == KconfWord(51) then 51 else if w == KconfWord(27) then 27 else if w
      == KconfWord(14) then 14 else if w == KconfWord(33) then 33 else 28;
    assert KconfWord(k) == w != [];
  }

  /** Exactly these words are found. */
  lemma {:induction false} KconfLookupFinds(w: string)
    ensures KconfLookup(w).Some? <==> w in KCONF_COMMANDS || w in KCONF_OPTIONS
  {
    hide KconfWord, KconfLookup, KCONF_COMMANDS, KCONF_OPTIONS;
    if w in KCONF_COMMANDS || w in KCONF_OPTIONS {
      if w in KCONF_COMMANDS {
        KconfCommand(w);
      } else {
        KconfOption(w);
      }
      var k: nat :| k < 73 && KconfWord(k) == w != [];
      KconfLookupExactly(w, k);
    }
    if KconfLookup(w).Some? {
      KconfLookupExactly(w, KconfLookup(w).value);
      KconfWordListed(KconfLookup(w).value);
    }
  }
}
