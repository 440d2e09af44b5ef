/** From the tokens that the lexer delivers to the terminals of the parser's tables. */
module ParserTokens {
  import opened GenksymsFollow
  import opened LrTables

  import LrParser

  /** yytranslate */
  function Terminal(i: nat): nat
    requires i < 300
  {
    if i < 269 then (if i < 125 then (if i < 45 then (if i < 41 then (if i < 1 then 0 else (if i < 40 then 2
    else 48)) else (if i < 43 then (if i < 42 then 49 else 50) else (if i < 44 then 2 else 47))) else (if i < 61
    then (if i < 59 then (if i < 58 then 2 else 53) else (if i < 60 then 45 else 2)) else (if i < 123 then (if i
    < 62 then 51 else 2) else (if i < 124 then 52 else 2)))) else (if i < 261 then (if i < 257 then (if i < 126
    then 46 else (if i < 256 then 2 else 1)) else (if i < 259 then (if i < 258 then 2 else 3) else (if i < 260
    then 4 else 5))) else (if i < 265 then (if i < 263 then (if i < 262 then 6 else 7) else (if i < 264 then 8
    else 9)) else (if i < 267 then (if i < 266 then 10 else 11) else (if i < 268 then 12 else 13))))) else (if i
    < 284 then (if i < 276 then (if i < 272 then (if i < 270 then 14 else (if i < 271 then 15 else 16)) else (if
    i < 274 then (if i < 273 then 17 else 18) else (if i < 275 then 19 else 20))) else (if i < 280 then (if i <
    278 then (if i < 277 then 21 else 22) else (if i < 279 then 23 else 24)) else (if i < 282 then (if i < 281
    then 25 else 26) else (if i < 283 then 27 else 28)))) else (if i < 292 then (if i < 288 then (if i < 286
    then (if i < 285 then 29 else 30) else (if i < 287 then 31 else 32)) else (if i < 290 then (if i < 289 then
    33 else 34) else (if i < 291 then 35 else 36))) else (if i < 296 then (if i < 294 then (if i < 293 then 37
    else 38) else (if i < 295 then 39 else 40)) else (if i < 298 then (if i < 297 then 41 else 42) else (if i <
    299 then 43 else 44)))))
  }

  /** The terminal of a token; tokens that are not positive end the input, a negative character too. */
  function Translate(token: int): nat {
    if token <= 0 then 0 else if token < 300 then Terminal(token) else 2
  }

  /** The terminals that the parser sees. */
  function Terminals(tokens: seq<int>): seq<nat> {
    if tokens == [] || tokens[0] <= 0 then [] else [Translate(tokens[0])] + Terminals(tokens[1..])
  }

  /** What a terminal stands for: the keywords, phrases and classes of words are numbered in order, the
      characters that the grammar knows follow, and any other character is the undefined token. */
  predicate StandsFor(terminal: nat, token: int) {
    if 258 <= token <= 299 then terminal == token - 255
    else if token == ';' as int then terminal == 45
    else if token == '}' as int then terminal == 46
    else if token == ',' as int then terminal == 47
    else if token == '(' as int then terminal == 48
    else if token == ')' as int then terminal == 49
    else if token == '*' as int then terminal == 50
    else if token == '=' as int then terminal == 51
    else if token == '{' as int then terminal == 52
    else if token == ':' as int then terminal == 53
    else if token == 256 then terminal == 1
    else terminal == 2
  }

  lemma TranslateExactly(token: int)
    requires token > 0
    ensures StandsFor(Translate(token), token) && 0 < Translate(token) < 54
  {
  }

  /** The first n tokens are all that the parser sees, each as the terminal that stands for it. */
  lemma {:induction false} TerminalsExactly(tokens: seq<int>, n: nat)
    requires n <= |tokens| && (forall i :: 0 <= i < n ==> tokens[i] > 0) && (n < |tokens| ==> tokens[n] <= 0)
    ensures |Terminals(tokens)| == n
    ensures forall i :: 0 <= i < n ==> StandsFor(Terminals(tokens)[i], tokens[i]) && 0 < Terminals(tokens)[i] < 54
  {
    hide Translate, StandsFor;
    if n > 0 {
      TranslateExactly(tokens[0]);
      TerminalsExactly(tokens[1..], n - 1);
    }
  }

  lemma {:induction false} TerminalsInRange(tokens: seq<int>)
    ensures forall i :: 0 <= i < |Terminals(tokens)| ==> 0 < Terminals(tokens)[i] < 54
  {
    hide Translate, StandsFor;
    if tokens != [] && tokens[0] > 0 {
      TranslateExactly(tokens[0]);
      TerminalsInRange(tokens[1..]);
    }
  }

  /** The verdict of the parser on any tokens of the lexer. */
  method ParseTokens(tokens: seq<int>) returns (status: LrParser.Status, tree: Tree)
    ensures status == LrParser.Accepted ==> Derives(tree, Terminals(tokens)) && Chosen(tree)
    ensures status == LrParser.SyntaxError ==> forall x :: Derives(x, Terminals(tokens)) ==> !Chosen(x)
    ensures status == LrParser.Exhausted <==> TooDeep(Terminals(tokens))
    ensures status != LrParser.Running
  {
    hide Derives, Chosen, TooDeep;
    TerminalsInRange(tokens);
    status, tree := ParseFile(Terminals(tokens));
  }
}
