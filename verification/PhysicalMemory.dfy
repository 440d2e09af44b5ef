/** Physical memory with the page allocator, as one machine. */
module PhysicalMemory {
  import opened PageWords
  import opened PageTables

  /** How many of the allocator's answers are pages. */
  function Successes(answers: seq<Word>): nat {
    if answers == [] then 0
    else (if answers[0] != ZERO then 1 else 0) + Successes(answers[1..])
  }

  /** The allocator never hands out a page that is in use, nor the same page twice. */
  ghost predicate Honest(answers: seq<Word>, used: set<Word>) {
    && (forall i :: 0 <= i < |answers| && answers[i] != ZERO ==> IsFrame(answers[i]) && answers[i] !in used)
    && (forall i, j :: 0 <= i < j < |answers| && answers[i] != ZERO ==> answers[i] != answers[j])
  }

  class Machine {
    var mem: Memory
    var cr3: Word
    /** What get_zeroed_page will answer, call by call; zero is a failure. */
    var answers: seq<Word>

    /** One call of get_zeroed_page. */
    method GetZeroedPage() returns (a: Word)
      requires answers != []
      modifies `mem, `answers
      ensures a == old(answers[0]) && answers == old(answers[1..])
      ensures mem == if a == ZERO then old(mem) else old(mem)[a := ZeroPage()]
    {
      a := answers[0];
      answers := answers[1..];
      if a != ZERO {
        mem := mem[a := ZeroPage()];
      }
    }

    /** Asks for a page until one is given, counting the pages. */
    method AllocatePage(count: nat) returns (a: Word, count': nat)
      requires Honest(answers, mem.Keys) && Successes(answers) > 0
      modifies `mem, `answers
      ensures Honest(answers, mem.Keys)
      ensures IsFrame(a) && a !in old(mem)
      ensures mem.Keys == old(mem).Keys + {a} && Kept(old(mem), mem, old(mem).Keys)
      ensures mem[a] == ZeroPage()
      ensures Successes(answers) == old(Successes(answers)) - 1
      ensures count' == count + 1
    {
      a := GetZeroedPage();
      count' := if a != ZERO then count + 1 else count;
      while a == ZERO
        invariant a == ZERO ==>
          mem == old(mem) && count' == count && Honest(answers, mem.Keys) &&
              Successes(answers) == old(Successes(answers))
        invariant a != ZERO ==>
          IsFrame(a) && a !in old(mem) && mem == old(mem)[a := ZeroPage()] && mem.Keys == old(mem).Keys + {a} &&
          count' == count + 1 &&
          Honest(answers, mem.Keys) && Successes(answers) == old(Successes(answers)) - 1
        decreases |answers|
      {
        a := GetZeroedPage();
        if a != ZERO {
          count' := count' + 1;
        }
      }
    }

    /** Stores one table entry. */
    method SetEntry(f: Word, i: Index, e: Word)
      requires f in mem
      modifies `mem
      ensures mem.Keys == old(mem).Keys && Kept(old(mem), mem, old(mem).Keys - {f})
      ensures mem[f] == old(mem)[f][i := e]
    {
      mem := mem[f := mem[f][i := e]];
    }
  }
}
