# SecureVM and the kernel's generated scanners and parsers, verified in Dafny

This project models two parts of the repository and proves what they compute.

**The SecureVM kernel module** keeps copies of the kernel's page tables, patches kernel functions
and tags physical pages with their owners.

- *Paging trees.* Physical memory is a map from frames to tables of 512 words. `DeepCopy` is the
  four-deep loop nest that copies a tree through an allocator that may fail any number of times;
  `CopyRelation` says what a copy is, and `CopyTheorems` what it means for address translation.
  The store of a copied page of PTEs uses the wrong index (`copy_pg.h:211`), so the copy is
  faithful only for some trees: `FaithfulExactly` says for which, and `StraySampleDiffers` gives
  a tree for which it is not. The loops take the index as a parameter, and with the right one every
  copy is faithful (`CorrectedTranslates`). `CopyRuns` follows a copy through any run of refills and writes,
  `CopyWords` says what a copy holds with the masks and bits written out, and `CopyTidy` that it uses no
  table twice.
- *Walks and sweeps.* `PageWalk` is the lookup that makes entries writable on its way down;
  `PageSweeps` write-protects the PMD level of the upper half and opens it again, and
  `SweepTheorems` says what the two do together, in trees whose levels share pages as well; `SweepWords`
  says what each does to every word.
- *The processor.* `CpuWalk` is the walk by the present bit, with the rights it finds by bits 1, 2 and
  63, and `CpuCopies` and `CpuSweeps` say what copies and sweeps mean to it.
- *Page tags.* `PageTags` is the table of owners and flags, driven by map, merge, clean and
  balloon events, with properties of all its histories.
- *Gates.* `SwitchGate` nests the hooked functions, which save the root in one shared variable
  and the interrupt flag on the stack.
- *Hooks.* `CodePatches` saves and overwrites the first bytes of functions, and restores them.

**The generated code of genksyms and kconfig.**

- *Scanner.* `FlexTables` is the automaton that the compressed tables encode and longest-match
  scanning; `FlexScanner` is the scanner itself, with its buffer, refills, NUL characters and
  backing up, and characters that are put back; `GenksymsTables` holds the shipped arrays and shows
  that they are well formed. `Lexemes` says what the names, numbers, strings and operators of C are, and
  which lines are markers; `LexemePhases` how far a text has got in each of them, character by character,
  and `GenksymsTokens` that the shipped tables match exactly these texts, and with which tokens.
- *Parser.* `LrTables` says when parser tables agree with a grammar; `LrParser` is the driver with
  its two growing stacks; `GenksymsGrammar` holds the shipped arrays, the shipped grammar and the
  items of every state, and `GenksymsParser` shows that they agree, and that the parser stops on
  every input. `LrRuns` says which derivations the driver follows, and `LrComplete` when these are all
  but those that meet one of a list of choices. `GenksymsChoices` and `GenksymsFollow` show that the
  shipped tables have seventeen, and that the parser accepts exactly the files with a derivation that
  meets none of them, as far as its stacks reach; `ShadowedType` is a sentence that has none.
  `ParserTokens` leads from the tokens of the lexer to the terminals of the parser.
- *The two stages of the lexer.* `FirstStage` says what the rules make of the scanner's matches and
  what is read again when something is put back. `PhraseLexer` runs on the scanner: it folds
  brackets, braces, attributes and initialisers into single tokens, puts separators and names back
  into the buffer, and collects the text of every token. `TokenRules` tells each of its calls by the
  tokens delivered before it and those to come, with the numbers of the tokens written out.
  `GenksymsLexer` is the lexer with the tables, the buffer and the keywords of the program.
- *Keywords.* `KeywordHash` shows both hash lookups equal to a search of their tables, and lists the words.
- *Menu dump and strings.* `MenuDump` shows that the loop that climbs by parent links writes what
  a recursive dump writes, and where the lines of every node begin and end; `QuotedStrings` shows what is
  printed, what is read, and which strings survive both.

Loops that change state are methods on classes or on the machine, each proved against a
specification on values; the properties are lemmas about the specifications. The shipped arrays
are decision trees on the index, with the values of the source; the items, the first and following
tokens, the plain transitions and the ranks beside them are not in the source, and what is assumed of
them is proved. The scanner's rules, lex.l, are not part of the repository, only the tables made from
them: the rules in `Lexemes` are those that the tables are proved to implement.

Words are 64-bit vectors. Bit positions of entries are those of 4-level paging, section 4.5 of the
Intel 64 and IA-32 Architectures Software Developer's Manual, volume 3A. A large third-level entry
is one with bits 0 and 7 set and a large second-level entry one with bit 7 set, as the kernel's own
`pud_large` and `pmd_large` test them; those two are not part of the repository.

There are two walks. The module's own code, in `find.h`, in the copying loops and in the sweeps, takes
an entry for valid if its page frame is not zero, and never reads the present bit; `Walk`, and with it
every theorem that speaks of lookups, is that test. The processor faults on an entry whose present bit
is clear, and follows one whose page frame is zero; `Translate` is that walk. The two differ on present
entries of page frame zero, which the copying loops drop (`LowSampleLost`) and the sweeps pass by
(`LowSampleStaysOpen`). Page frames are bits 12 to 47 for both: physical addresses have 48 bits.

Assumptions about the environment: physical and virtual addresses of pages correspond one to one;
the allocator hands out nonzero frames that are not in use, each once, and gives enough of them
before it runs out of answers; reads from a file deliver at least one character before the end.

Where the code and its messages differ, the model follows the code: a merge announces that the
page merged into is marked as used, but its used bit is not set (`MergedButNotUsed`); the refresh
of a page table has a loop below the root that is never entered (`UpdatePagetable`); the lookup of
a page's tag prepares four verdicts and answers zero in every case (`HandlePfnModify`).

## Model

| member | source | states |
|---|---|---|
| PageWords.RetargetFrame | src/SecureVM/copy_pg.h:132-134 | an entry rewritten for a new page points at that page |
| PageWords.RetargetFlags | src/SecureVM/copy_pg.h:26-29 | the rewritten entry has the bits of the old one under the mask 0xfc00000000000fff of getflag_pgx |
| PageWords.RetargetBits | src/SecureVM/copy_pg.h:26-29 | bit by bit: bits 12 to 47 of the rewritten entry are those of the new page, bits 0 to 11 and 58 to 63 those of the old entry, the user bit and no-execute among them, and the ten between are clear |
| PageWords.FrameBits | src/SecureVM/copy_pg.h:13-25 | the page frame is bits 12 to 47 |
| PageWords.InvalidBits | src/SecureVM/copy_pg.h:16-25 | an entry points at nothing exactly if none of these bits is set |
| PageWords.KindBits | src/SecureVM/copy_pg.h:148-192 | which bits decide on presence, on writing and on the two sizes of page |
| PageWords.WritableBits | src/SecureVM/set_pgprot.h:126-128 | setting and flipping the writable bit change bit 1 and no other |
| CpuWalk.RetargetRights | src/SecureVM/copy_pg.h:26-29 | bits 0, 1, 2, 7 and 63 of a rewritten entry, by which the processor goes, are those of the old one |
| PageWords.RetargetPudKind | src/SecureVM/copy_pg.h:148-157 | a third-level entry keeps its kind (1 GB page or table) when it is rewritten |
| PageWords.RetargetPmdKind | src/SecureVM/copy_pg.h:183-192 | a second-level entry keeps its kind (2 MB page or table) when it is rewritten |
| PageWords.SameButRwMeans | src/SecureVM/set_pgprot.h:126-128 | entries that differ only in the writable bit have the same page, kind and other flags |
| PhysicalMemory.Machine.AllocatePage | src/SecureVM/copy_pg.h:94-105 | however often the allocator fails before it succeeds, one fresh zeroed page is handed out, everything in use is kept and the count rises by one |
| DeepCopy.CopyPtePage | src/SecureVM/copy_pg.h:212-221 | the new page of PTEs equals the old one and no other page changes |
| DeepCopy.CopyPmdSlot | src/SecureVM/copy_pg.h:179-223 | slot i3 becomes a copy of its own old slot, a copied table is also stored in the slot given for line 211, no other slot changes, and the pages spent are counted |
| DeepCopy.PmdLoopStep | src/SecureVM/copy_pg.h:179-223 | the invariant of the third loop is kept: every slot is a copy of its own old slot, but with the index i2 of line 211 slot i2 is a copy of the last table met |
| DeepCopy.CopyPmdPage | src/SecureVM/copy_pg.h:176-224 | a whole page of PMD entries is copied, with the pages spent counted |
| DeepCopy.CopyPudSlot | src/SecureVM/copy_pg.h:141-225 | one slot of the second loop, with all the tables below it |
| DeepCopy.PudLoopStep | src/SecureVM/copy_pg.h:141-225 | the invariant of the second loop is kept |
| DeepCopy.CopyPudPage | src/SecureVM/copy_pg.h:141-226 | a whole page of PUD entries is copied with everything below it, with the pages spent counted |
| DeepCopy.CopyPgdSlot | src/SecureVM/copy_pg.h:109-227 | one slot of the root, with all the tables below it |
| DeepCopy.PgdLoopStep | src/SecureVM/copy_pg.h:109-227 | the invariant of the outer loop is kept |
| DeepCopy.CopyRange | src/SecureVM/copy_pg.h:109-233 | the slots of one half of the root are copied and the others are left alone, with the shipped index in the store of line 211 or the corrected one, and no table of the copy is used twice, as TablesOnce says |
| DeepCopy.CopyPagetable | src/SecureVM/copy_pg.h:81-240 | the new root copies the upper half of the old tree and is empty below; only fresh pages are written; the count is one plus the tables met, counted once for each path |
| DeepCopy.CopyPagetableHalf | src/SecureVM/copy_pg.h:279-439 | the upper half of a given root becomes a copy of the current tree, whatever it held |
| DeepCopy.UpdatePagetable2 | src/SecureVM/copy_pg.h:776-779 | the lower half of a given root becomes a copy of the current tree and its upper half is untouched; word for word this is CopiedWords |
| DeepCopy.UpdatePagetable | src/SecureVM/copy_pg.h:611-773 | the refresh copies the 256 upper entries of the root, allocates nothing, and shares every table below |
| CopyWords.CopiedWords | src/SecureVM/copy_pg.h:26-233 | every word of the copied half, with the masks and bits written out: entries that point at nothing and large pages stay as they are, but PMD entries that point at nothing become zero; every other entry points at a page that was not there before and keeps the bits under 0xfc00000000000fff; pages of PTEs are equal word for word; slot i2 of a PMD page shows the last later table |
| CopyTidy.PmdApartStep | src/SecureVM/copy_pg.h:179-223 | the invariant of the third loop that no two slots filled so far lead to the same page of PTEs, the slot of line 211 aside |
| CopyTidy.PudApartStep | src/SecureVM/copy_pg.h:141-225 | the invariant of the second loop that no table lies below two of the slots filled so far |
| CopyTidy.PgdApartStep | src/SecureVM/copy_pg.h:109-227 | the same of the outer loop |
| CopyTidy.TablesOnce | src/SecureVM/copy_pg.h:26-233 | in a deep copy the ways to two addresses lead over the same table only at the same level and through the same slots, the slots of line 211 aside |
| CopyTheorems.PmdCopiedMeans | src/SecureVM/copy_pg.h:176-223 | lookups (as in find.h) through a copied PMD entry reach the same translation |
| CopyTheorems.PudCopiedMeans | src/SecureVM/copy_pg.h:141-225 | lookups through a copied PUD entry reach the translation of the old entry, with the slot the stray store fills redirected to the last table |
| CopyTheorems.PgdCopiedMeans | src/SecureVM/copy_pg.h:109-227 | the same for entries of the root |
| CopyTheorems.CopyTranslates | src/SecureVM/copy_pg.h:109-233 | for every address of the half copied, the lookup from the copy reaches the same level, leaf and rights as the lookup from the original at the redirected address; the redirection moves only PMD index = PUD index, to the last later slot that holds a table. A lookup is that of find.h, for which a page frame of zero is a fault; for the processor see CopyShows |
| CopyTheorems.CorrectedTranslates | src/SecureVM/copy_pg.h:211-211 | with the index i3 in the store every lookup from the copy agrees with the one from the original, for any tree |
| CopyTheorems.SameTablesMeans | src/SecureVM/copy_pg.h:211-211 | two PMD entries translate alike for every PTE index exactly if the tables they lead to agree |
| CopyTheorems.HarmlessPathMeans | src/SecureVM/copy_pg.h:211-211 | one path of the tree is copied faithfully exactly if the slot hit by the stray store is alone, last, or equivalent to the last table |
| CopyTheorems.HarmlessTreeMeans | src/SecureVM/copy_pg.h:211-211 | the same for a whole tree |
| CopyTheorems.FaithfulExactly | src/SecureVM/copy_pg.h:211-211 | lookups, as in find.h, from the copy agree with those from the original on every address of the half if and only if every slot that the stray store hits is harmless |
| CopyTheorems.StraySampleDiffers | src/SecureVM/copy_pg.h:211-211 | a concrete tree for which the copy translates an address differently |
| CpuCopies.PmdCopiedExactly | src/SecureVM/copy_pg.h:183-192 | a copied PMD entry means the same to the processor, which goes by the present bit, if and only if it is not a present entry of page frame zero |
| CpuCopies.CopyShows | src/SecureVM/copy_pg.h:109-233 | the processor translates every address of the copy as the redirected address of the old tree, but faults where that one runs into a present PMD entry of page frame zero; for both versions of the store |
| CpuCopies.SameToCpuMeans | src/SecureVM/copy_pg.h:211-211 | two PMD entries mean the same to the processor for every PTE index exactly if the tables they lead to agree |
| CpuCopies.FaithfulToCpuExactly | src/SecureVM/copy_pg.h:184-211 | the processor translates every address of the half through the copy as through the original if and only if no PMD slot that both reach is present with page frame zero, and none shows a later table that differs from its own; for both versions of the store; the rights found are those of bits 1, 2 and 63 of every entry read |
| CpuCopies.LowSampleLost | src/SecureVM/copy_pg.h:184-188 | a tree with no stray table whose first 2 MB page the processor finds mapped, and faults on in every copy |
| CpuCopies.SnapshotHoldsForCpu | src/SecureVM/copy_pg.h:107-239 | after a deep copy no sequence of writes to old pages changes what the processor finds for an address, unless a present entry of page frame zero makes the copy share a table |
| CopyTheorems.StoresKeep | src/SecureVM/copy_pg.h:107-239 | stores to old tables leave all other pages as they are |
| CopyTheorems.SnapshotHolds | src/SecureVM/copy_pg.h:107-239 | after a deep copy no sequence of writes to old tables changes any walk from the copy |
| CopyTheorems.LiveViewHolds | src/SecureVM/copy_pg.h:639-650 | after a refresh the walks from both roots agree, and keep agreeing after any writes below the root |
| CopyTheorems.OtherHalfUndisturbed | src/SecureVM/copy_pg.h:441-601 | filling one half of a root leaves every walk through the other half as it was |
| CopyTheorems.HalvesCompose | src/SecureVM/copy_pg.h:776-779 | the copy of the upper half followed by the copy of the lower half agrees with the old root on the whole 48-bit space, with the same redirection |
| CopyRuns.FillKeeps | src/SecureVM/copy_pg.h:279-439 | filling a half from the root in use brings that half up to date and keeps the other |
| CopyRuns.WriteKeeps | src/SecureVM/copy_pg.h:107-239 | writes to tables outside the copy keep it up to date with the memory it was made from |
| CopyRuns.RunKeepsUpToDate | src/SecureVM/copy_pg.h:279-601 | over every run of fills, refills and writes each half of the copy shows the tree, below the root in use then, as it was when that half was last filled |
| CopyRuns.FreshCopyIsUpToDate | src/SecureVM/copy_pg.h:81-240 | a new copy is such a start state |
| PageWalk.SplitRebuilds | src/SecureVM/find.h:29-38 | the five fields are in range and add up to the low 48 bits of the address |
| PageWalk.IndicesRebuild | src/SecureVM/find.h:29-38 | the four indices and the offset are the digits of the low 48 bits, in this order |
| PageWalk.SameWalks | src/SecureVM/find.h:48-133 | setting or clearing writable bits in tables shared in any way changes no translation from any root, writable bits aside |
| PageWalk.FindPte | src/SecureVM/find.h:113-133 | the lookup in a page of PTEs: two flips cancel, the entry ends writable |
| PageWalk.FindPmd | src/SecureVM/find.h:87-133 | the lookup from the PMD level on refines the pure walk, and reports the entries it passes; which entries it changes is FindChanges |
| PageWalk.FindPud | src/SecureVM/find.h:63-133 | the lookup from the PUD level on refines the pure walk |
| PageWalk.Find | src/SecureVM/find.h:15-133 | level and validity reported are those of a pure walk on the memory before the call, each entry reported is that of its level if the walk reaches one that points at something and is left alone otherwise, and the memory after it is that of FindChanges |
| PageWalk.FindChanges | src/SecureVM/find.h:48-133 | exactly these entries change, and of them the writable bit alone: those on the path down to the page found or to the last entry that points at something, and the PTE slot reached whether it does or not |
| PageWalk.FaultingEntryKept | src/SecureVM/find.h:48-92 | an entry of a table at which the lookup gives up is unchanged, unless it is also an entry passed before |
| PageWalk.FindHarmless | src/SecureVM/find.h:48-133 | a lookup disturbs no address of any tree |
| PageWalk.FindMakesWritable | src/SecureVM/find.h:60-115 | after a successful lookup the address can be written through every table on its path |
| PageSweeps.LastSweepShows | src/SecureVM/set_pgprot.h:126-128 | of any two sweeps over one entry only the last shows |
| PageSweeps.ClosePmdPage | src/SecureVM/set_pgprot.h:122-137 | every entry of the page that points at something is write-protected, and nothing else changes |
| PageSweeps.CloseUpperHalf | src/SecureVM/set_pgprot.h:92-140 | exactly the PMD entries reached from the upper half are write-protected, in whatever way tables are shared |
| SweepWords.ClosedWords | src/SecureVM/set_pgprot.h:92-140 | every word of memory after closing: bit 1 is clear in the words that point at a page and lie in a page that slots 256 to 511 of the root lead to, and no other bit changes |
| PageSweeps.OpenPmdPage | src/SecureVM/set_pgprotrw.h:66-79 | every entry of the page is made writable if the PUD entry is writable, even if both are in one page |
| PageSweeps.OpenUpperHalf | src/SecureVM/set_pgprotrw.h:36-82 | exactly the pages of the set computed in slot order are opened, however levels share pages: a page joins the set when it is met below a PUD entry that is writable at the start or lies in a page already opened; the loop of set_pgtable_prot6 (set_pgprot.h:142-192) is the same |
| SweepWords.OpenedWords | src/SecureVM/set_pgprotrw.h:36-82 | every word after opening: bit 1 is set in the words that point at a page in the pages opened, and no other bit changes; the pages opened are among those reached, and among them are all those below a writable PUD entry, and no others if no page serves two levels |
| SweepTheorems.OpenSetMeans | src/SecureVM/set_pgprotrw.h:36-82 | a page is opened exactly if some PUD entry leads to it that is writable at the start, or whose page a slot before it in the walk has opened |
| PageSweeps.PagesSame | src/SecureVM/set_pgprot.h:103-121 | no sweep changes what later sweeps reach |
| SweepTheorems.PagesMeans | src/SecureVM/set_pgprot.h:103-121 | a page is reached exactly if some path from the upper half leads to it |
| SweepTheorems.CloseTwice | src/SecureVM/set_pgprot.h:92-140 | closing is idempotent, whatever tables are shared |
| SweepTheorems.OpenTwiceExactly | src/SecureVM/set_pgprotrw.h:36-82 | a second opening changes nothing if and only if no page that the first one did not open, met below a PUD entry in a page that it did open, holds a valid entry that is not writable |
| SweepTheorems.SeparateSettled | src/SecureVM/set_pgprotrw.h:36-82 | where no PUD page is also a PMD page, opening is idempotent |
| SweepTheorems.OpenTwiceSample | src/SecureVM/set_pgprotrw.h:36-82 | a tree with a page that points at itself, for which a second opening changes memory |
| SweepTheorems.CloseAfterOpen | src/SecureVM/set_pgprot.h:92-192 | closing undoes opening |
| SweepTheorems.CloseThenOpen | src/SecureVM/set_pgprot.h:92-192 | what closing and opening together make of every page, for any tree: opened, closed or untouched; no frame bits change |
| SweepTheorems.WritableExactly | src/SecureVM/set_pgprotrw.h:70-71 | after closing and opening, a valid PMD entry reached is writable exactly when some PUD entry that leads to it is writable and in no page closed, or in a page that is opened again before its turn |
| SweepTheorems.ReopenSetMeans | src/SecureVM/set_pgprotrw.h:36-82 | which pages are opened after closing, in terms of the tree before it |
| SweepTheorems.WritableSeparate | src/SecureVM/set_pgprotrw.h:70-71 | where no PUD page is also a PMD page, that is when some PUD entry leading to it is writable |
| SweepTheorems.WritableSample | src/SecureVM/set_pgprotrw.h:70-71 | a tree with a page that points at itself, for which a writable PUD entry leads to an entry that stays closed |
| SweepTheorems.ClosedIsReadOnly | src/SecureVM/set_pgprot.h:92-140 | after closing, the only addresses of the upper half that lookups find writable through every table are those mapped by 1 GB pages; for the processor see ClosedIsReadOnlyForCpu |
| CpuSweeps.ClosedForCpuExactly | src/SecureVM/set_pgprot.h:92-140 | after closing, the processor can write to an address if and only if every entry it reads was present and writable and is in no page closed, or has page frame zero |
| CpuSweeps.ClosedIsReadOnlyForCpu | src/SecureVM/set_pgprot.h:92-140 | after closing, the processor can write to an address of the upper half only over a 1 GB page or a present entry of page frame zero at one of the upper three levels |
| CpuSweeps.LowSampleStaysOpen | src/SecureVM/set_pgprot.h:123-125 | a tree whose first 2 MB page can still be written after closing |
| SweepTheorems.RoundTripExactly | src/SecureVM/set_pgprotrw.h:36-82 | for any tree, after closing and opening an address is writable exactly if every entry of its path is, in a page opened, or was and is in no page closed |
| SweepTheorems.RoundTripForgets | src/SecureVM/set_pgprotrw.h:36-82 | where PMD pages serve as tables of no other level, that is when the entries of the other levels allow it, even if its PMD entry did not before |
| PageTags.TagTable.HandlePfnModify | src/SecureVM/gate_function.h:1216-1281 | the lookup answers zero whatever the tag says; it changes at most the shared flag |
| PageTags.TagTable.HandlePfnMap | src/SecureVM/gate_function.h:1284-1326 | the new table after a map event |
| PageTags.TagTable.KsmPageModify | src/SecureVM/gate_function.h:1329-1391 | the new table after a merge, for all four combinations of the two flags |
| PageTags.MergeAt | src/SecureVM/gate_function.h:1329-1391 | what a merge does to every frame, with the numbers of the flags written out |
| PageTags.TagTable.CleanPageModify | src/SecureVM/gate_function.h:1434-1445 | the new table after a clean event |
| PageTags.TagTable.InflatePageModify | src/SecureVM/gate_function.h:1457-1477 | the new table after a balloon inflation |
| PageTags.TagTable.DeflatePageModify | src/SecureVM/gate_function.h:1480-1501 | the new table after a balloon deflation |
| PageTags.EventAt | src/SecureVM/gate_function.h:1216-1501 | what every other event does to every frame, with the numbers of the flags written out |
| PageTags.UsedByHistory | src/SecureVM/gate_function.h:1284-1445 | over every run from the zero table, the used bit is set exactly if the latest event that decides about the page is a map |
| PageTags.SharedByHistory | src/SecureVM/gate_function.h:1284-1391 | over every run, a frame has the shared flag exactly if some event has marked it since it was last cleaned or merged away, and the merged flag exactly if a merge has |
| PageTags.OwnerByHistory | src/SecureVM/gate_function.h:1284-1501 | every non-zero owner is the virtual machine of an earlier map that reached the page through a chain of merges |
| PageTags.FlagsInvariant | src/SecureVM/gate_function.h:1292-1390 | in every reachable state flags lie within 0x80, 0x08 and 0x01, and 0x08 comes with 0x01 |
| PageTags.OwnershipConserved | src/SecureVM/gate_function.h:1284-1501 | a map adds at most one owned page and no other event adds any |
| PageTags.OwnedBounded | src/SecureVM/gate_function.h:1284-1501 | after any run no more pages are owned than there were maps |
| PageTags.OwnedIsUsedOrMerged | src/SecureVM/gate_function.h:1338-1390 | an owned page is marked as used or got its owner by a merge |
| PageTags.MergedButNotUsed | src/SecureVM/gate_function.h:1338-1390 | a run after which a page is owned and not marked as used |
| SwitchGate.Cpu.DisableIntFirst | src/SecureVM/interupt.h:1-25 | pushes the interrupt flag and clears it |
| SwitchGate.Cpu.EnableInt | src/SecureVM/interupt.h:26-50 | whatever is set before it, the flag ends as the one pushed last |
| SwitchGate.Cpu.EnterGate | src/SecureVM/gate_function.h:315-321 | the root in use is saved and stays in use; interrupts are off |
| SwitchGate.Cpu.LeaveGate | src/SecureVM/gate_function.h:325-327 | the flags come back, and the root saved last |
| SwitchGate.GateIsQuiet | src/SecureVM/gate_function.h:315-327 | inside a gate, after any calls made there, interrupts are off, and the flag to bring back is the one it was entered with |
| SwitchGate.Cpu.Execute | src/SecureVM/gate_function.h:311-478 | each hooked function has the effect of its specification, nested calls included |
| SwitchGate.FlagsRestored | src/SecureVM/gate_function.h:311-478 | every call, however nested, leaves the interrupt flag and the saved flags as they were |
| SwitchGate.RootRestored | src/SecureVM/gate_function.h:311-478 | every nesting without a write of CR3 leaves CR3 as it was, although all levels share one saved root |
| SwitchGate.GatesTransparent | src/SecureVM/gate_function.h:311-478 | such nestings have the effect of the same calls without gates; the two stores of an entry equal one |
| SwitchGate.LastWriteWins | src/SecureVM/gate_function.h:311-478 | after any nesting every entry, CR4 and CR0 hold what the last write to them that was carried out gave them, CR0 with bit 16 set and its other bits as given; what nothing was written to is unchanged |
| SwitchGate.RootWriteInsideGate | src/SecureVM/gate_function.h:334-354 | a CR3 write inside the handler of a fault is lost when it comes last, and survives the gate of the fault when a further gate follows it there |
| SwitchGate.TraceMeans | src/SecureVM/gate_function.h:311-478 | which root is in use and which is saved after any nesting |
| SwitchGate.GateRestoresRoot | src/SecureVM/gate_function.h:384-435 | a gate restores the root it was entered with, for every root, if and only if the calls inside it leave that root saved |
| FlexTables.LongestUnique | src/linux-4.4.1/scripts/genksyms/lex.lex.c:801-830 | the longest match is unique |
| FlexTables.RunOfPrefix | src/linux-4.4.1/scripts/genksyms/lex.lex.c:801-819 | what the automaton does on a prefix does not depend on what follows |
| FlexTables.FirstCharacterMatches | src/linux-4.4.1/scripts/genksyms/lex.lex.c:801-830 | in both start states any first character matches some rule |
| FlexTables.RecordGrows | src/linux-4.4.1/scripts/genksyms/lex.lex.c:805-809 | the last accepting state recorded so far stays correct when one more character is read |
| FlexTables.NextToken | src/linux-4.4.1/scripts/genksyms/lex.lex.c:787-1035 | the reference token stream starts with the longest match |
| FlexScanner.Scanner.Restart | src/linux-4.4.1/scripts/genksyms/lex.lex.c:1353-1365 | the buffer is empty and new again and nothing pending is lost |
| FlexScanner.Scanner.Read | src/linux-4.4.1/scripts/genksyms/lex.lex.c:670-700 | a read delivers some non-empty part of what is left, or the end |
| FlexScanner.Scanner.Grow | src/linux-4.4.1/scripts/genksyms/lex.lex.c:1094-1131 | the buffer doubles until there is room, with its contents kept |
| FlexScanner.Scanner.MoveToStart | src/linux-4.4.1/scripts/genksyms/lex.lex.c:1078-1082 | the partial token is moved to the start of the buffer, byte by byte and in place |
| FlexScanner.Scanner.GetNextBuffer | src/linux-4.4.1/scripts/genksyms/lex.lex.c:1045-1174 | a refill keeps the partial token and the unread text, in order, reports which of the three cases it is, and leaves no more behind the text than it kept and one read |
| FlexScanner.Scanner.Transition | src/linux-4.4.1/scripts/genksyms/lex.lex.c:804-816 | one transition through the compressed tables |
| FlexScanner.Scanner.GetPreviousState | src/linux-4.4.1/scripts/genksyms/lex.lex.c:1179-1206 | the state rebuilt from the text is the state the automaton had reached, with the same record |
| FlexScanner.Scanner.TryNulTrans | src/linux-4.4.1/scripts/genksyms/lex.lex.c:1212-1233 | the transition on a NUL character of the text |
| FlexScanner.Scanner.Match | src/linux-4.4.1/scripts/genksyms/lex.lex.c:801-819 | the inner loop stops where the automaton is stuck |
| FlexScanner.Scanner.HandleNul | src/linux-4.4.1/scripts/genksyms/lex.lex.c:942-975 | a NUL inside the buffer is scanned like any character |
| FlexScanner.Scanner.HandleEnd | src/linux-4.4.1/scripts/genksyms/lex.lex.c:977-1028 | at the end of the buffer scanning goes on, takes the last match, or ends |
| FlexScanner.Scanner.Scan | src/linux-4.4.1/scripts/genksyms/lex.lex.c:753-1035 | one call delivers the longest match of everything still pending, read or not, with its text set apart in the buffer and a place to spare for putting it back |
| FlexScanner.Scanner.ScanAll | src/linux-4.4.1/scripts/genksyms/lex.lex.c:753-1035 | for every input, NUL characters included, and every split of it into reads, the tokens are those of longest-match scanning of the whole input |
| FlexScanner.Scanner.MakeRoom | src/linux-4.4.1/scripts/genksyms/lex.lex.c:1244-1264 | the shift moves the rest of the input and the two end-of-buffer characters to the end of the buffer, and two places are free before it exactly if the buffer has them |
| FlexScanner.Scanner.Unput | src/linux-4.4.1/scripts/genksyms/lex.lex.c:1235-1270 | a character put back is the first of what is pending; this fails exactly if, with everything at the end of the buffer, fewer than two places are free before it |
| FlexScanner.Scanner.Less | src/linux-4.4.1/scripts/genksyms/lex.lex.c:1713-1726 | the characters of the text given back are pending again, before the others |
| GenksymsLexer.OverflowSample | src/linux-4.4.1/scripts/genksyms/lex.lex.c:1235-1270 | with the buffer of the program and behind a name of 8191 characters, the name can be put back but not the character before it |
| GenksymsTables.GenksymsShape | src/linux-4.4.1/scripts/genksyms/lex.lex.c:374-520 | the shipped arrays have the sizes and classes the scanner relies on |
| GenksymsTables.GenksymsSteps | src/linux-4.4.1/scripts/genksyms/lex.lex.c:425-520 | every lookup in the shipped tables ends within the chain of default states and leads to a live state or jams |
| GenksymsTables.GenksymsAccepts | src/linux-4.4.1/scripts/genksyms/lex.lex.c:374-385 | in the shipped tables every single character is matched by some rule |
| GenksymsTables.GenksymsWellFormed | src/linux-4.4.1/scripts/genksyms/lex.lex.c:374-520 | the shipped tables satisfy everything the scanner proof asks of tables; which texts they match is MatchesExactly |
| GenksymsTokens.LookupGoes | src/linux-4.4.1/scripts/genksyms/lex.lex.c:425-520 | every lookup in the compressed tables leads where a plain transition table leads |
| GenksymsTokens.StateKnows | src/linux-4.4.1/scripts/genksyms/lex.lex.c:425-520 | after any prefix of any input the state tells how far the prefix has got in the texts of each of the twelve rules |
| GenksymsTokens.RuleOfText | src/linux-4.4.1/scripts/genksyms/lex.lex.c:374-385 | a prefix of an input is matched by a rule of the shipped tables exactly if it is a text of that rule, and of no earlier one, as C has names, numbers, strings and operators |
| GenksymsTokens.MatchesExactly | src/linux-4.4.1/scripts/genksyms/lex.lex.c:374-520 | the longest match of any input by the shipped tables is the longest prefix that is such a text |
| GenksymsTokens.NameMatched | src/linux-4.4.1/scripts/genksyms/lex.lex.c:868-870 | every word over letters, digits, the underscore and the dollar sign that starts with no digit is matched as one name, whatever follows that is not such a character; but for an L before a quote |
| LrTables.ItemOnTop | src/linux-4.4.1/scripts/genksyms/parse.tab.c:1587-1667 | an item of the state on top tells the symbols on top of the stack and the state below them |
| LrTables.ReduceStack | src/linux-4.4.1/scripts/genksyms/parse.tab.c:2174-2192 | a complete rule on top of the stack can be reduced, and the goto leads to a state that fits |
| LrTables.ReduceYield | src/linux-4.4.1/scripts/genksyms/parse.tab.c:2174-2178 | a reduction changes no yield |
| LrTables.NoEndMarker | src/linux-4.4.1/scripts/genksyms/parse.tab.c:2336-2345 | a tree for anything but the accepting rule has no end marker in it |
| LrParser.Parser.StoreState | src/linux-4.4.1/scripts/genksyms/parse.tab.c:1508-1582 | the state is stored, and both stacks keep their contents when they grow |
| LrParser.Parser.Enlarge | src/linux-4.4.1/scripts/genksyms/parse.tab.c:1516-1577 | the larger stacks hold what the old ones held |
| LrParser.Parser.Decide | src/linux-4.4.1/scripts/genksyms/parse.tab.c:1587-1660 | the action taken is the one the tables give for the next token, it is justified by the items of the state, and a token is read only if the state needs one |
| LrParser.Parser.DoShift | src/linux-4.4.1/scripts/genksyms/parse.tab.c:1636-1650 | a shift consumes exactly the lookahead, which is the next token of the input |
| LrParser.Parser.DoReduce | src/linux-4.4.1/scripts/genksyms/parse.tab.c:2174-2192 | a reduction replaces a right-hand side by its left-hand side |
| LrParser.Parser.ShiftSound | src/linux-4.4.1/scripts/genksyms/parse.tab.c:1636-1650 | after a shift the trees on the stack still derive what has been shifted, and the rank of the stack and the unread tokens is lower, unless the end of the input was shifted |
| LrParser.Parser.ReduceSound | src/linux-4.4.1/scripts/genksyms/parse.tab.c:2174-2192 | after a reduction the trees on the stack still derive what has been shifted, and the rank is lower, whatever state was uncovered |
| LrParser.Parser.Round | src/linux-4.4.1/scripts/genksyms/parse.tab.c:1508-2192 | every round keeps the invariant: the trees on the stack are parse trees and their yield, followed by the unread tokens, is the input; it makes one step of the run that the tables define, and lowers the rank of the stack and the unread tokens |
| LrParser.Parser.AcceptedTree | src/linux-4.4.1/scripts/genksyms/parse.tab.c:2336-2345 | in the final state the stack holds a parse tree of the whole input |
| LrParser.Parser.NextRound | src/linux-4.4.1/scripts/genksyms/parse.tab.c:1508-2192 | what a round shows of the whole input: a tree that the tables follow if it stops in the final state, that there is none if it stops elsewhere, and that the run is too deep if the stacks are full |
| LrParser.Parser.Parse | src/linux-4.4.1/scripts/genksyms/parse.tab.c:1430-2192 | the driver stops on every input; if it accepts without an error, the tokens are derived from the start symbol by a tree that the tables follow; if it finds an error, they follow no tree of the input; and it runs out of stack exactly where the run needs more than the limit |
| LrRuns.Pushes | src/linux-4.4.1/scripts/genksyms/parse.tab.c:1508-2192 | where the tables follow a tree, the driver turns the tokens of the tree into the tree and reads nothing else |
| LrRuns.CleanAccepted | src/linux-4.4.1/scripts/genksyms/parse.tab.c:1508-2192 | if the tables follow a tree of the whole input, the run ends in the final state with this tree |
| LrRuns.StepGood | src/linux-4.4.1/scripts/genksyms/parse.tab.c:1508-2192 | the tables follow the trees on the stack, after every round, and the states on it are those they pass through |
| LrRuns.FinalClean | src/linux-4.4.1/scripts/genksyms/parse.tab.c:1579-1580 | where the run reaches the final state, the tables follow the tree it has built |
| LrRuns.StopsEarly | src/linux-4.4.1/scripts/genksyms/parse.tab.c:1653-1656 | a run that stops in another state has no tree of the input to find |
| LrRuns.CleanUnique | src/linux-4.4.1/scripts/genksyms/parse.tab.c:1508-2192 | the tables follow at most one tree of an input |
| LrComplete.TreeStarts | src/linux-4.4.1/scripts/genksyms/parse.tab.c:498-624 | the first token of a derivation is one its symbol can start with |
| LrComplete.NextFollows | src/linux-4.4.1/scripts/genksyms/parse.tab.c:498-624 | the token after a child of a node is one that can follow the symbol of the child |
| LrComplete.PlainIsClean | src/linux-4.4.1/scripts/genksyms/parse.tab.c:1587-1667 | tables that are complete but for a list of choices follow every derivation in which none of these choices is met |
| LrComplete.FollowedExactly | src/linux-4.4.1/scripts/genksyms/parse.tab.c:1587-1667 | such tables follow a derivation of a whole input if and only if it meets none of the choices |
| GenksymsParser.EntersFollows | src/linux-4.4.1/scripts/genksyms/parse.tab.c:861-882 | a state entered over a symbol has only items that its predecessor had before that symbol |
| GenksymsParser.ActionsJustified | src/linux-4.4.1/scripts/genksyms/parse.tab.c:668-860 | every action of the shipped tables, in every state and on every token, shifts to a state that fits or reduces a complete rule |
| GenksymsParser.GotosJustified | src/linux-4.4.1/scripts/genksyms/parse.tab.c:692-860 | every goto of the shipped tables leads to a state that fits |
| GenksymsParser.ParserAgrees | src/linux-4.4.1/scripts/genksyms/parse.tab.c:498-882 | the shipped tables agree with the shipped grammar |
| GenksymsParser.ReductionGoesDown | src/linux-4.4.1/scripts/genksyms/parse.tab.c:2174-2192 | in every state a reduction the shipped tables allow lowers the rank, whatever state it uncovers |
| GenksymsParser.ParserDescends | src/linux-4.4.1/scripts/genksyms/parse.tab.c:498-882 | every action of the shipped tables lowers the rank, so that there is no endless chain of reductions |
| GenksymsFollow.ChoicesNeighbours | src/linux-4.4.1/scripts/genksyms/parse.tab.c:498-624 | the sets of first and following tokens are closed under the rules of the shipped grammar |
| GenksymsFollow.ItemMoves | src/linux-4.4.1/scripts/genksyms/parse.tab.c:692-882 | in every state the shipped tables move over every symbol that an item expects, to a state that has the item moved |
| GenksymsFollow.ItemReduces | src/linux-4.4.1/scripts/genksyms/parse.tab.c:668-882 | in every state the shipped tables reduce every complete rule before every token that can follow it, but for seventeen choices that the generator has settled |
| GenksymsFollow.ParserComplete | src/linux-4.4.1/scripts/genksyms/parse.tab.c:498-882 | the shipped tables follow every derivation of the shipped grammar in which none of these choices is met |
| GenksymsFollow.ChosenUnique | src/linux-4.4.1/scripts/genksyms/parse.tab.c:498-882 | a file has at most one derivation that meets none of the choices |
| GenksymsFollow.ParseFile | src/linux-4.4.1/scripts/genksyms/parse.tab.c:1430-2355 | the parser on its own tables stops on every token sequence; it accepts with the one derivation that meets none of the choices, reports an error only where there is none, and runs out of stack exactly where the run puts ten thousand states on it |
| ParserTokens.TranslateExactly | src/linux-4.4.1/scripts/genksyms/parse.tab.c:457-495 | the terminal of every token of the lexer: keywords, phrases and classes of words in order, the nine characters of the grammar, and the undefined token for any other character |
| ParserTokens.TerminalsExactly | src/linux-4.4.1/scripts/genksyms/parse.tab.c:1606-1615 | what the parser sees of a run of the lexer: the terminals of all tokens before the first that is not positive |
| ParserTokens.ParseTokens | src/linux-4.4.1/scripts/genksyms/parse.tab.c:1430-2355 | the verdict of the parser on any tokens of the lexer, whatever they are |
| ShadowedType.ShadowedTypeRefused | src/linux-4.4.1/scripts/genksyms/parse.tab.c:741-882 | a declaration of a variable whose name is known as a type is a sentence of the grammar, and no derivation of it is one that the tables follow, so the parser does not accept it |
| FirstStage.StreamStep | src/linux-4.4.1/scripts/genksyms/lex.lex.c:844-905 | the longest match of an input is the first token of the first stage, or nothing if it is white space |
| GenksymsTokens.StreamTells | src/linux-4.4.1/scripts/genksyms/lex.lex.c:844-905 | what the first stage makes of the longest text of an input, told by what the text is: the number of its token and its characters, nothing for white space, newlines and lines that are no markers, and the end of all tokens for a NUL |
| FirstStage.LookupLate | src/linux-4.4.1/scripts/genksyms/lex.lex.c:425-520 | no transition but from the start states leads to a state that matches a single character |
| FirstStage.SingleCharacter | src/linux-4.4.1/scripts/genksyms/lex.lex.c:901-903 | the rule for single characters matches nothing longer |
| FirstStage.AloneMatches | src/linux-4.4.1/scripts/genksyms/lex.lex.c:901-903 | a comma, a semicolon, a closing brace and an opening parenthesis are longest matches by themselves, whatever follows and whether or not a line starts there |
| FirstStage.AloneNext | src/linux-4.4.1/scripts/genksyms/lex.lex.c:2196-2212 | such a character put back before any input is read again as the same token, and what follows it is read as before |
| FirstStage.IdentifierAgain | src/linux-4.4.1/scripts/genksyms/lex.lex.c:2131-2131 | an identifier is matched with the same length by the same rule if it is read again away from the start of a line |
| FirstStage.IdentifierNext | src/linux-4.4.1/scripts/genksyms/lex.lex.c:2131-2132 | an identifier put back, and a parenthesis put back before it, are read again as these two tokens |
| FirstStage.CharacterTokens | src/linux-4.4.1/scripts/genksyms/lex.lex.c:901-903 | in everything the first stage delivers, a token whose code is a character has that character as its text |
| PhraseLexer.PhraseLengthMeans | src/linux-4.4.1/scripts/genksyms/lex.lex.c:2061-2224 | a phrase ends at the first token that brings the depth back to zero or, in an expression, before the first separator at depth zero; it has no end only if there is no such token |
| PhraseLexer.DepthInside | src/linux-4.4.1/scripts/genksyms/lex.lex.c:2143-2181 | inside brackets and braces the depth stays positive up to the end |
| PhraseLexer.SeparatorNext | src/linux-4.4.1/scripts/genksyms/lex.lex.c:2188-2219 | the separator that ends an expression, the first of what is still to be read, is the next token delivered, by itself |
| PhraseLexer.TypeofLoses | src/linux-4.4.1/scripts/genksyms/lex.lex.c:2101-2141 | the texts a typeof collects and those of the tokens it leaves are all it was given, in order, but for one opening parenthesis if it drops one |
| PhraseLexer.DroppedExactly | src/linux-4.4.1/scripts/genksyms/lex.lex.c:2101-2141 | a typeof followed by a parenthesis loses the text of that parenthesis, and nothing else, if and only if no identifier follows it |
| PhraseLexer.MissingMeans | src/linux-4.4.1/scripts/genksyms/lex.lex.c:2138-2140 | what is missing by count is that many opening parentheses and nothing else |
| PhraseLexer.TypeNamePutBack | src/linux-4.4.1/scripts/genksyms/lex.lex.c:2125-2136 | a typeof of a type name takes nothing: parenthesis and name are next again |
| PhraseLexer.Lexer.FirstStage | src/linux-4.4.1/scripts/genksyms/lex.lex.c:753-905 | one call takes the first token of all that the scanner has pending; what that token is, is StreamTells |
| PhraseLexer.Lexer.PutBack | src/linux-4.4.1/scripts/genksyms/lex.lex.c:2192-2215 | a separator that has just been read is put back into the scanner, which always has room for it, and is the next token again |
| PhraseLexer.Lexer.PutBackName | src/linux-4.4.1/scripts/genksyms/lex.lex.c:2131-2132 | a name that has just been read is put back with a parenthesis before it, and both are the next tokens again; this fails exactly if fewer than two places are free before the name with everything at the end of the buffer, and then some match had run over all but one read of the buffer when a refill came |
| PhraseLexer.Lexer.InTypeof | src/linux-4.4.1/scripts/genksyms/lex.lex.c:2101-2141 | one token inside a typeof; it fails exactly if it is the name of a type behind the parenthesis and there is no room to put both back |
| PhraseLexer.Lexer.FinishTypeof | src/linux-4.4.1/scripts/genksyms/lex.lex.c:2101-2141 | a typeof delivers, collects and leaves exactly what the reference function says |
| PhraseLexer.Lexer.InBrackets | src/linux-4.4.1/scripts/genksyms/lex.lex.c:2061-2181 | one token inside an attribute, assembler, bracket or brace phrase |
| PhraseLexer.Lexer.InExpression | src/linux-4.4.1/scripts/genksyms/lex.lex.c:2183-2224 | one token inside an expression; a separator at depth zero goes back to the scanner and is the next token again |
| PhraseLexer.Lexer.Outside | src/linux-4.4.1/scripts/genksyms/lex.lex.c:1992-2058 | one token outside all phrases; what comes of it in a run is CalledExactly |
| PhraseLexer.Lexer.FinishPhrase | src/linux-4.4.1/scripts/genksyms/lex.lex.c:2061-2224 | a phrase takes exactly its tokens and collects their texts in order |
| PhraseLexer.Lexer.Accounted | src/linux-4.4.1/scripts/genksyms/lex.lex.c:1938-2291 | a call loses no text but one parenthesis for each typeof that drops one |
| PhraseLexer.Lexer.Lex | src/linux-4.4.1/scripts/genksyms/lex.lex.c:1938-2291 | one call delivers and collects what the reference functions say of the tokens the scanner has pending; over every run the texts collected and those still to come are those of the whole input, in order, but for one parenthesis for each typeof that dropped one; zero comes only at the end; the table states are never entered; the only failure is a type name behind a typeof with no room before it; told without these functions the call is that of CalledExactly |
| TokenRules.VisibleBetween | src/linux-4.4.1/scripts/genksyms/lex.lex.c:1958-1982 | line markers are skipped, and nothing else |
| TokenRules.BracketedExactly | src/linux-4.4.1/scripts/genksyms/lex.lex.c:2061-2181 | an attribute, assembler, bracket or brace phrase takes the tokens up to the first closing bracket with as many opened as closed, and there is no token but the end if there is none |
| TokenRules.ExpressedExactly | src/linux-4.4.1/scripts/genksyms/lex.lex.c:2183-2224 | an expression takes the tokens before the first comma, semicolon or closing brace that has as many brackets opened as closed before it |
| TokenRules.TypedExactly | src/linux-4.4.1/scripts/genksyms/lex.lex.c:2101-2141 | a typeof, by counts of parentheses: it begins to count at the first parenthesis with as many opened as closed before it, leaves a name known to the parser with its parenthesis, and else takes one token uncounted and all up to the parenthesis that closes one more |
| TokenRules.NamedExactly | src/linux-4.4.1/scripts/genksyms/lex.lex.c:1993-2038 | the token of a word: that of its keyword, TYPE if it is the name of a type and no struct, union or enum was delivered just before it, and IDENT otherwise; the words of struct, union, enum and exported symbols are never types |
| TokenRules.CalledExactly | src/linux-4.4.1/scripts/genksyms/lex.lex.c:1938-2291 | every call keeps to the rule, which tells the token delivered and the tokens left by the tokens delivered before and the tokens to come |
| TokenRules.OpeningBrace | src/linux-4.4.1/scripts/genksyms/lex.lex.c:2041-2047 | in any run an opening brace is delivered by itself if and only if one of the two tokens delivered before it is struct, union or enum; any other starts a brace phrase |
| GenksymsLexer.LexAll | src/linux-4.4.1/scripts/genksyms/lex.lex.c:1938-2291 | a whole source, whatever types the parser knows at each call: every call keeps to the rule and begins where the one before it ended, the calls end, and the texts collected are those of the source but for the parentheses dropped; with the buffer of 16384 and reads of 8192 the program fails only if some match had run 8191 characters when a refill came |
| GenksymsLexer.Start | src/linux-4.4.1/scripts/genksyms/lex.lex.c:757-785 | the lexer at the start, on the shipped tables, buffer size and keywords |
| GenksymsLexer.PhraseWords | src/linux-4.4.1/scripts/genksyms/lex.lex.c:1993-2013 | with the shipped keywords, exactly which words start a typeof, an attribute and assembler |
| GenksymsLexer.ReservedIsLookup | src/linux-4.4.1/scripts/genksyms/lex.lex.c:1996-1998 | the words the second stage knows are those that the perfect hash finds, with the same tokens |
| KeywordHash.LookupExactly | src/linux-4.4.1/scripts/genksyms/keywords.hash.c:46-229 | for every string without a NUL the lookup finds an entry exactly if the string is one of the keywords, and then its own entry |
| KeywordHash.LookupIsMap | src/linux-4.4.1/scripts/genksyms/keywords.hash.c:87-229 | so for strings without a NUL the lookup answers like a map of the keywords |
| KeywordHash.LookupFinds | src/linux-4.4.1/scripts/genksyms/keywords.hash.c:87-229 | the words found, written out with their tokens: a word is found with a token if and only if it is listed for that token |
| KeywordHash.KconfLookupExactly | src/linux-4.4.1/scripts/kconfig/zconf.hash.c:44-291 | the same for the kconfig keywords, for every string without a NUL |
| KeywordHash.KconfLookupFinds | src/linux-4.4.1/scripts/kconfig/zconf.hash.c:44-291 | the kconfig words found, written out |
| MenuDump.VisitHead | src/linux-4.4.1/scripts/kconfig/zconf.tab.c:2535-2560 | one step into a node keeps output and visited nodes equal to the recursive dump |
| MenuDump.Climb | src/linux-4.4.1/scripts/kconfig/zconf.tab.c:2565-2571 | climbing by parent links writes the closing lines of exactly the menus left, which DumpLaidOut and EndsCounted tell by prompts and links, and stops at the next node in order |
| MenuDump.ZconfDump | src/linux-4.4.1/scripts/kconfig/zconf.tab.c:2527-2572 | on every tree with consistent links the loop ends, visits no node twice, and writes what the recursive dump writes; told by the links and prompts of the nodes: the lines of a node begin with its head, those of its first child follow, then those of each next sibling, and behind the last one of a menu is its closing line; there are as many closing lines as menus with children |
| MenuDump.DumpLaidOut | src/linux-4.4.1/scripts/kconfig/zconf.tab.c:2527-2572 | where the lines of every node begin and end, by its prompt and its links, in anything that the dump writes |
| MenuDump.EndsCounted | src/linux-4.4.1/scripts/kconfig/zconf.tab.c:2565-2567 | the closing lines are as many as the nodes with the prompt of a menu and a list of children |
| MenuDump.ForestUnique | src/linux-4.4.1/scripts/kconfig/zconf.tab.c:2527-2572 | the links determine the tree |
| MenuDump.VisitedOnce | src/linux-4.4.1/scripts/kconfig/zconf.tab.c:2527-2572 | the nodes below a root with consistent links are listed once each, and the root is none of them |
| QuotedStrings.PrintQuoted | src/linux-4.4.1/scripts/kconfig/zconf.tab.c:2428-2443 | the loop prints the string in quotes, with a backslash before each quote |
| QuotedStrings.EscapeExactly | src/linux-4.4.1/scripts/kconfig/zconf.tab.c:2428-2443 | every quote printed has a backslash right before it, and without these the string is as it was |
| QuotedStrings.Scanner.AppendString | src/linux-4.4.1/scripts/kconfig/zconf.lex.c:828-841 | the contents are the old contents and the new piece, there is room for the final zero, and a new buffer has a multiple of sixteen bytes |
| QuotedStrings.Scanner.Match | src/linux-4.4.1/scripts/kconfig/zconf.lex.c:1078-1083 | the full-table automaton stops at the end of the longest match, and its state says what it has seen |
| QuotedStrings.PlainMatch | src/linux-4.4.1/scripts/kconfig/zconf.lex.c:1245-1262 | what the two rules for plain text amount to, character by character |
| QuotedStrings.EscapeMatch | src/linux-4.4.1/scripts/kconfig/zconf.lex.c:1263-1280 | what the two rules for a backslash amount to |
| QuotedStrings.QuoteMatch | src/linux-4.4.1/scripts/kconfig/zconf.lex.c:1281-1306 | what the rules for a quote, a newline and the end of the file amount to |
| QuotedStrings.PiecesRead | src/linux-4.4.1/scripts/kconfig/zconf.lex.c:1245-1306 | what is read, told by pieces: plain characters and characters behind a backslash stand for themselves up to the end quote; a newline ends the word unless it is the first character or follows a quote, and then there is no word; at the end of the file there is none either |
| QuotedStrings.Scanner.ReadWord | src/linux-4.4.1/scripts/kconfig/zconf.lex.c:1245-1306 | the string states deliver what the character-by-character reading says, with the text in the buffer and the rest unread |
| QuotedStrings.NeverCatchesUp | src/linux-4.4.1/scripts/kconfig/zconf.lex.c:1263-1280 | once an escape has swallowed a backslash the text read can never equal the text printed |
| QuotedStrings.ReadsBackExactly | src/linux-4.4.1/scripts/kconfig/zconf.tab.c:2428-2443 | a printed string is read back as itself, and everything after it is left, if and only if it holds no backslash and no newline |
| CodePatches.StubJumps | src/SecureVM/set_hook.h:576-581 | the twelve bytes written decode to a jump to the replacement, whose address they hold lowest byte first |
| CodePatches.Module.Install | src/SecureVM/set_hook.h:574-596 | the first twelve bytes are saved and replaced by the stub |
| CodePatches.Module.InstallAll | src/SecureVM/hookcr32.c:51-73 | the code and the saved bytes after all installs |
| CodePatches.Module.RestoreAll | src/SecureVM/hookcr32.c:90-110 | the code after restores in a given order |
| CodePatches.HooksInstalled | src/SecureVM/hookcr32.c:51-73 | for targets at least twelve bytes apart, each is a jump to its own replacement and no other byte changed |
| CodePatches.RestoredExactly | src/SecureVM/hookcr32.c:90-110 | for any hooks and any order of restores, the round trip brings back every code if and only if for every byte covered by a hook the last restore covering it belongs to the first hook installed over it |
| CodePatches.AnyOrderRestores | src/SecureVM/hookcr32.c:90-110 | targets that do not overlap are restored byte for byte in any order |
| CodePatches.BackwardsRestores | src/SecureVM/hookcr32.c:90-110 | restoring in the opposite order of the installs needs no distance between targets |
| CodePatches.ExitRestoresExactly | src/SecureVM/hookcr32.c:88-116 | the order of the module brings back every code if and only if the only hooks that overlap are 3 and 4, 8 and 10, or 9 and 10 |
| CodePatches.ExitMayFail | src/SecureVM/hookcr32.c:88-116 | thirteen hooks, two of which overlap, and the order of the module: some code is not brought back |
| CodePatches.Module.Exit | src/SecureVM/hookcr32.c:88-116 | unloading, in its own order, completes the round trip, and leaves the original code if no hooks overlap but those three pairs |

## Left out

- UpdatePagetable: the loops after its `continue` are never entered and are not modelled.
- Find: the word read from the page found is not modelled, since memory holds tables only; the fields that repeat the address and its indices, and those that point at the entries, are not either.
- GatesTransparent: does not cover nestings that write CR3; for those `TraceMeans` and `GateRestoresRoot` say which root is in use.
- Read: the interactive way of reading, one character at a time up to the end of a line, is not modelled; it delivers some non-empty part of the input like any other read.
- Grow: buffers the scanner does not own, with which the program ends, and a size that overflows an `int` are not modelled.
- GetNextBuffer: the branch for buffers that are not refilled is not modelled; the scanner reads from a file.
- ParseTokens: takes the tokens at once, where the parser asks for each as it needs it and tells the lexer of new types in between; `LexAll` allows any types at each call.
- ParseFile: the first error ends the run, and larger stacks are always to be had up to the limit; the rule of the generator by which it settled its choices is not modelled, only what it chose.
- Lex: bytes from 128 on are negative codes, as with the signed characters of x86; a NUL outside strings and line markers is token 0, after which the parser asks for no more, and further calls are not modelled.
- PutBackName: where there is no room the program ends with a message; nothing is said of what has been collected by then.
- FindMakesWritable: about lookups; the processor may fault on an address that a lookup finds mapped, since a lookup does not read the present bit.
- RunKeepsUpToDate: about lookups; for the processor see `CopyShows` and `SnapshotHoldsForCpu`.
- WritableExactly: about entries, and RoundTripExactly about lookups.
- ZconfDump: the lines that `print_symbol` writes for properties and help texts are one line per kind of head.
- KsmPageModify: frame number zero is excluded; the source would use the place before the tag table.
- CleanPageModify: indexes the tag table without a check; frames outside it are excluded (`Sound`).
- InflatePageModify: indexes the tag table without a check; frames outside it are excluded (`Sound`).
- DeflatePageModify: indexes the tag table without a check; frames outside it are excluded (`Sound`).
- LookupExactly: strings are sequences without a NUL; the C code compares up to the first NUL, while the length it hashes may go beyond.
- Semantic actions and error recovery of the parser, symbol tables and the types of expressions: values on the stack are parse trees, and the first error ends the run.
- The parser tables of kconfig: the driver is the same code with other tables.
- Scanner: fatal errors of reading and allocation, several input files, and the extension of the buffer by half after a read that overran it, which the size of the read rules out.
- The second stage skips file names and line numbers instead of recording them.
- The string states of kconfig run on the whole text; refills are covered by the other scanner. Help texts, commands and parameters of kconfig are left out.
- The dump of one symbol's properties and expressions.
- `set_pgtable_prot`, `set_pgtable_prot2` and `clear_newpgd_addr`: what they compute is not what they are named for.
- `set_pgtable_prot3`: its only call is commented out (`gate_function.h:387`), and the root entries it would make writable are touched by no sweep that is modelled.
- TLB flushes, messages, VMREAD and VMWRITE, the page-fault handler itself, module registration, the other hook variants that the module does not install.
- CR3 is one number; process-context identifiers in its low bits are not modelled. Interleavings of several processors are not modelled.
