# Foreign LINUX: a verified model of its core

Foreign LINUX runs unmodified i386 Linux programs on Windows, with a dynamic binary translator and a
kernel in user mode. This project models its hardest parts in Dafny and proves what they are for.

* **The translator** (`Dbt*.dfy`). `DbtMachine` is the guest: program counter, registers, flags and
  memory, with straight-line instructions as opaque state transformers, and with the bytes just below
  the stack pointer volatile, as they are under asynchronous signals. `DbtCache` says what each function
  of the translator makes of the code cache, the four indexes of blocks, the sieve and the return cache;
  `DbtTranslator` is the same as a class that updates them in place, each method proved against its
  function. `DbtInvariant` to `DbtDispatch` prove that every address the translator has noted carries
  its template, whatever has been translated, patched, chained, evicted or flushed. `DbtTarget` runs the
  generated code, with the assembly stubs as specified steps, `DbtRelation` relates its states to the
  guest's at every operation, and `DbtSimulation` proves the simulation over all runs.
* **Operands and GS** (`ModRM`, `GsRewrite`): decoding and encoding of ModR/M bytes, and GS-relative
  instructions rewritten through an unused register.
* **The memory manager** (`PageMap`, `MemoryMap`): munmap, mprotect, mmap and the free-space searches on
  the tree of page intervals, with its sections and file references. `Cow` and `CowProof`: sections
  shared copy-on-write by any number of processes refine a machine that copies all memory at fork;
  `CowLoose`: which pages the hardware lets a process write though it should not.
* **The red-black tree** (`RbShape`, `RbTree`): nodes with parent pointers, rewritten in place, proved
  against a tree and a path to it (a zipper) that mirror them.
* **The futex** (`Futex`, `FutexCalls`): bucket locks, wait blocks and events as interleaved steps, and what whole calls
  do among others; `WaitSpec` and `WaitList`: the doubly linked wait lists and the scan of wake and requeue, in place.
* **The heap** (`Heap`), **signal hand-off** (`Signal`, `SignalRuns`) and **transcoding** (`Utf`).

Operating-system calls are parameters or steps that succeed: the address that `mm_mmap` finds for a
bucket, whether `VirtualAlloc` grants memory, whether a protection can be changed. Registers, addresses
and lengths are 32-bit words with explicit wrap-around.

## Where the code departs from its intent

* `dbt_gen_sieve` takes room for its stub without checking for it (line 961 of `src/dbt/x86.c`):
  `dbt_find_next_sieve` keeps the cache sound if and only if there is room (`DbtDispatch.FindSieveInv`).
  Calls for one address alone use the room up (`DbtDispatch.SieveCallsIff`, `DbtDispatch.SieveWithoutRoom`).
* With esp as the base of a GS-relative operand, the `lea` that is to add the base is cut off behind its
  opcode (lines 285-289 and 1578-1582); every other base is added (`GsRewrite.BaseAddedIff`).
* `free_map_entry_blocks` lets `end_block--` wrap (line 326 of `src/syscall/mm.c`), and the loop over the
  blocks then never ends; `MemoryMap.Wild`, on the entries before the call, is the exact condition under
  which munmap does not return (`MemoryMap.Mm.UnmapPages`, and `MemoryMap.WildExample` for an input).
* `mprotect` accepts a range from page 0 on whenever no entry begins there, because `start_page - 1`
  wraps, and refuses a mapped range that begins inside an entry (`MemoryMap.AcceptedIsMapped`,
  `MemoryMap.RefusedInside`, `MemoryMap.ProtectNothing`). `munmap` and `mprotect` of length 0 at address
  0 mean the whole address space (`PageMap.RangeExact`, `MemoryMap.UnmapEverything`), and the length of a
  mapping can wrap to 0, which leaves an entry that ends in front of its start (`MemoryMap.EmptyEntry`).
* Only entries that end inside the unmapped range are reported to the translator (`PageMap.Reported`,
  `MemoryMap.UnreportedCode`), and a VirtualAlloc entry does not give its file reference back
  (`PageMap.Due`, `MemoryMap.LeakedFile`).
* `handle_on_demand_page_fault` reports a block as found only if its first page has an entry (line 921 of
  `src/syscall/mm.c`): the first access to a mapping that begins inside a fresh block is refused, and the
  process ends or its system call fails, though the block has been loaded. `CowProof.FaultServedIff` and
  `CowProof.FaultOpens` are the exact condition, `CowProof.FaultRefused` an input.
* Pages without an entry stay open to stores in a block that has been loaded or duplicated;
  `CowLoose.StrayIff` says for every run which ones.
* `find_free_pages` may return a run that ends above its limit, in front of an entry there, and
  `find_free_pages_topdown` one that begins below its limit, behind an entry there
  (`MemoryMap.AboveLimit`, `MemoryMap.BelowLimit`).
* mmap into a shared block leaves the read-only pages of that block writable for the hardware, and fork
  leaves them so (`CowLoose.ReadOnlyLeak`). `CowLoose.LooseIff` says for every run which pages are in that
  state, and `CowLoose.ForkLeaksIff` that a fork leaks exactly if the parent has one.
* `signal_setup_handler` lets its thread accept signals again, and `rt_sigsuspend` changes the mask,
  without looking at the pending ones: `Signal.LeftBehindIff` says exactly which signals are left behind,
  and `Signal.LeftBehind` is a run in which one is.
* `sys_kill` does not check its signal number, which then indexes the table of actions (line 131 of
  `src/syscall/sig.c`); `Signal` is about numbers below 64.
* A requeue to the same address leaves its waiters where they are (`WaitSpec.RequeueEmpties`).
* The last object of every bucket of the heap reaches beyond its block (`Heap.OverrunIff`).
* The UTF-8 reader takes any bytes for the further bytes of a form, and overlong forms (`Utf.Read8Iff`,
  `Utf.ReadsMalformed`).
* A UTF-8 buffer that is too short is not reported (`Utf.FittingIff`, `Utf.ShortBuffer`), and U+0080 in a
  filename is looked up behind the end of the table (`Utf.NameBackIff`).

## Model

| member | source | states |
|---|---|---|
| DbtSimulation.RunSimulated | src/dbt/x86.c:1303-1998 | every run of translated code, of any length, is a run of the guest beside it: at each state the relation holds, and between two states the guest executes at most one instruction; a system call that flushes may leave other guest code behind |
| DbtSimulation.StepSimulated | src/dbt/x86.c:1676-1871 | each operation of each template and stub, and each assembly stub, is matched by one guest instruction or by none, and then the next one has come closer |
| DbtSimulation.SameAtStart | src/dbt/x86.c:1355-1368 | whenever the target is at the start of an instruction, the guest is at that address with the same registers, flags and memory outside the window below esp |
| DbtSimulation.OutsideWindow | src/dbt/x86.c:1676-1699 | the stack at and above esp lies outside that window |
| DbtSimulation.NeverStuck | src/dbt/x86.c:1303-1998 | the target never reaches bytes that are no operation |
| DbtSimulation.KeepsUp | src/dbt/x86.c:1370-1378 | the target takes at most as many steps as its rank says before the guest executes its next instruction, however blocks are chained and ended |
| DbtSimulation.RankBounded | src/dbt/x86.c:1370-1378 | in every state the rank is at most 8 * 2^32 + 45, so no run of the target leaves the guest standing still |
| DbtSimulation.RunStarts | src/dbt/x86.c:2076-2082 | the state in which dbt_run enters the code stands for the guest's first state |
| DbtSimulation.CallDirectStep | src/dbt/x86.c:1676-1699 | a direct call pushes the return address and continues at its target |
| DbtSimulation.IndirectCallStart | src/dbt/x86.c:1701-1745 | the operand read after the push, GS-relative or not, is the guest's operand, and the call pushes and goes where the guest's does |
| DbtSimulation.OperandAfterPush | src/dbt/x86.c:1711-1712 | an esp-based operand corrected by 4 reads the same word after the push |
| DbtSimulation.JumpIndirectStep | src/dbt/x86.c:1786-1809 | an indirect jump, GS-relative or not, puts its target on the stack for the dispatcher |
| DbtSimulation.JumpStep | src/dbt/x86.c:1772-1837 | direct and conditional jumps lead to the guest's next address |
| DbtSimulation.LoopStep | src/dbt/x86.c:1839-1871 | LOOP, LOOPE, LOOPNE and JECXZ branch and count as the guest's do |
| DbtSimulation.ReturnStart | src/dbt/x86.c:1747-1751 | RET pops the guest address that is then looked up |
| DbtSimulation.ReturnNStart | src/dbt/x86.c:1753-1770 | RETN moves the return address over the arguments it pops, also when they overlap |
| DbtSteps.FindDirectReturns | src/dbt/x86_trampoline.asm:27-47 | the stub behind an unpatched branch returns to the translation of the branch's target with the guest's registers and stack restored |
| DbtSteps.SieveReturns | src/dbt/x86_trampoline.asm:70-87 | the sieve fallback returns to the translation of the address on the stack |
| DbtSteps.SystemReturns | src/dbt/x86_trampoline.asm:146-180 | after a system call, which may flush the cache and change the guest's code, the target is at the translation of the next instruction |
| DbtSteps.CompareStep | src/dbt/x86.c:968-975 | the check of a stub or postamble succeeds exactly for its own guest address |
| DbtSteps.MissStep | src/dbt/x86.c:973-976 | a failed check goes to a lower stub of the chain or to the fallback, and from a postamble only to the fallback |
| DbtSteps.HitStep | src/dbt/x86.c:978-986 | a successful check restores ecx and the stack and ends at the translation of the address |
| DbtSteps.ReturnStep | src/dbt/x86.c:1254-1279 | a return goes to the fallback or to a postamble, with the address and ecx saved for its check |
| DbtSteps.DispatchStep | src/dbt/x86.c:873-913 | dispatch enters the sieve chain of the address's bucket, or the fallback |
| DbtLookup.FindInv | src/dbt/x86.c:2000-2022 | dbt_find keeps the invariant, returns the head of a block for exactly this guest address, and drops nothing unless it flushed |
| DbtLookup.FindExact | src/dbt/x86.c:2000-2022 | a block that exists is returned and nothing changes; otherwise exactly one block is added at the next boundary, and the cache is flushed for it exactly if the block table is full or less than a block's room is left |
| DbtLookup.FindAgrees | src/dbt/x86.c:2000-2022 | after dbt_find the hash chains, both trees and the block array hold the same blocks, each address once, starts increasing, and the next lookup hits |
| DbtLookup.TranslateInv | src/dbt/x86.c:1336-1351 | dbt_translate gives a sound cache in which the address has a new start and its own instruction begins there, never a jump elsewhere, after a flush or as an extension of the old one |
| DbtLookup.TranslateExact | src/dbt/x86.c:1336-1351 | when it flushes, and that otherwise everything translated before stays |
| DbtLookup.AlignRoom | src/dbt/x86.c:854-859 | aligning the start of a block does not use up the room that was checked before, because the end only drops by whole stubs |
| DbtLookup.GenInv | src/dbt/x86.c:1355-1995 | the translation loop leaves a sound block of templates behind, whatever the guest code |
| DbtLookup.InitInv | src/dbt/x86.c:757-781 | the flushed cache is sound, has room, and its indexes agree |
| DbtLookup.FindBlockComplete | src/dbt/x86.c:861-871 | find_block finds the block of an address if and only if there is one |
| DbtTemplates.CodeEmitted | src/dbt/x86.c:1370-1886 | each case of the translator leaves the template of its instruction, or a jump to where the block goes on |
| DbtTemplates.BranchesLead | src/dbt/x86.c:1012-1063 | a branch or call leads to the block of its target at once if there is one, and only otherwise takes a stub |
| DbtTemplates.CallRemembers | src/dbt/x86.c:1676-1745 | a call makes the return cache lead to its own postamble, unless everything is traced |
| DbtTemplates.CallTrampolineInv | src/dbt/x86.c:1051-1063 | a call trampoline drops the dummy address and continues with a patchable jump to the target |
| DbtTemplates.PostambleInv | src/dbt/x86.c:1226-1252 | a call postamble checks for its own return address and falls through to its translation |
| DbtGrowth.TrampolineInv | src/dbt/x86.c:1012-1032 | a branch is given the start of its target, or a stub that names the target and the branch's own operand |
| DbtGrowth.Grow | src/dbt/x86.c:1303-1998 | code that is added or rewritten soundly leaves everything else sound |
| DbtDispatch.PatchInv | src/dbt/x86.c:2068-2072 | patching a branch to the translation of its own target keeps the cache sound |
| DbtDispatch.FindDirectInv | src/dbt/x86.c:2063-2074 | dbt_find_direct leads to the translation of the target, patches the branch it was called for, and never patches a flushed cache |
| DbtDispatch.FindDirectExact | src/dbt/x86.c:2063-2074 | the branch is patched, and nothing else is, exactly if tracing is off and the block was there or there was room for it |
| DbtDispatch.StubsChain | src/dbt/x86.c:2047-2055 | each sieve chain is acyclic, stays in its bucket, and ends at the fallback |
| DbtDispatch.LookupExact | src/dbt/x86.c:957-986 | a lookup reaches the translation of the address if some stub of the chain accepts it, and the fallback otherwise |
| DbtDispatch.AppendInv | src/dbt/x86.c:2040-2058 | appending a stub to its chain keeps the cache sound if and only if there is room for it |
| DbtDispatch.AppendFinds | src/dbt/x86.c:2040-2058 | after appending soundly, a lookup of the address no longer falls back |
| DbtDispatch.AppendKeeps | src/dbt/x86.c:2040-2058 | and a lookup of any other address that reached its translation before still does |
| DbtDispatch.FindSieveInv | src/dbt/x86.c:2031-2060 | dbt_find_next_sieve returns the head of a block for the right address, and keeps the cache sound if and only if there is room for its stub |
| DbtDispatch.SieveCallsIff | src/dbt/x86.c:2031-2060 | once an address has its block, the cache stays sound for exactly as many calls as there is room for stubs |
| DbtDispatch.SieveWithoutRoom | src/dbt/x86.c:957-986 | from the flushed state, for every guest program, calls for one address lead to a sound cache that the next call makes unsound |
| DbtDispatch.CodeChangedExact | src/dbt/x86.c:832-847 | afterwards no cached block starts in the changed range, and the cache is flushed exactly if one did |
| DbtTranslator.Dbt.constructor | src/dbt/x86.c:783-792 | a new translator is in the flushed state |
| DbtTranslator.Dbt.Flush | src/dbt/x86.c:757-825 | all chains, trees and tables are reset |
| DbtTranslator.Dbt.Lookup | src/dbt/x86.c:861-871 | the walk along the hash chain gives the block of the address |
| DbtTranslator.Dbt.GetDirectTrampoline | src/dbt/x86.c:1012-1032 | a cached start or a new stub at the end of the cache |
| DbtTranslator.Dbt.Handle | src/dbt/x86.c:1676-1886 | the code of each handler, byte by byte in its layout |
| DbtTranslator.Dbt.Translate | src/dbt/x86.c:1336-1995 | the block allocated, flushed for if need be, and filled by the loop |
| DbtTranslator.Dbt.Find | src/dbt/x86.c:2000-2022 | lookup or translation, with soundness and agreement of the indexes kept |
| DbtTranslator.Dbt.FindDirect | src/dbt/x86.c:2063-2074 | the branch's operand rewritten exactly when the cache was not flushed |
| DbtTranslator.Dbt.FindNextSieve | src/dbt/x86.c:2031-2060 | the walk to the last stub of the chain and the rewriting of its jump, with and without room for the new stub |
| DbtTranslator.Dbt.CodeChanged | src/dbt/x86.c:832-847 | afterwards no block starts in the changed range and the indexes agree |
| ModRM.RoundTrip | src/dbt/x86.c:188-324 | parsing what gen_modrm_sib wrote gives back the register field, the operand and the bytes behind it |
| ModRM.Reencode | src/dbt/x86.c:188-324 | every parsed operand can be encoded again with the same effective address for all register values |
| ModRM.DecodeAddress | src/dbt/x86.c:188-252 | the operand that is parsed is the one the processor addresses by the fields of the ModR/M and SIB bytes, for all register values |
| ModRM.EncodeAddress | src/dbt/x86.c:278-324 | the processor addresses the operand that was to be encoded |
| ModRM.EncodableIff | src/dbt/x86.c:285-289 | an operand can be encoded if and only if its index is not esp |
| ModRM.Emitter.GenModrmSib | src/dbt/x86.c:278-324 | the bytes appended are the encoding |
| GsRewrite.RewriteCorrect | src/dbt/x86.c:1568-1608 | the rewritten GS-relative instruction has the original's effect on every register, flag and memory cell, for any instruction confined to its declared registers |
| GsRewrite.BaseAddedIff | src/dbt/x86.c:1578-1582 | the base is added if and only if it is not esp, whatever bytes follow |
| GsRewrite.PushGsCorrect | src/dbt/x86.c:1180-1223 | through any unused register the push of a GS-relative operand pushes the word at gs plus the effective address and changes nothing else |
| GsRewrite.AddressKept | src/dbt/x86.c:1575-1586 | the copied instruction addresses gs_base plus the effective address, with wrap-around |
| GsRewrite.NoneLeftIff | src/dbt/x86.c:1103-1138 | no scratch register is found exactly if all six candidates are used |
| GsRewrite.FirstUnusedIs | src/dbt/x86.c:1127-1134 | the register chosen is a candidate outside the footprint |
| GsRewrite.FirstOfAll | src/dbt/x86.c:1127-1134 | the first unused one of eax, ecx, edx, ebx, esi and edi is chosen |
| GsRewrite.UsedIs | src/dbt/x86.c:1103-1126 | exactly the registers are avoided that the operands denote, the handler names, the ModR/M and SIB bytes hold or rep counts in, and perhaps eax |
| GsRewrite.ImplicitIs | src/dbt/x86_inst.c:38-67 | the registers that each operand kind denotes |
| GsRewrite.MaskIsSum | src/dbt/x86_inst.h:267-276 | a handler byte is the sum of the masks of its registers |
| PageMap.StartNodeSkips | src/syscall/mm.c:258-266 | a walk from start_node meets every entry that ends at or after the page |
| PageMap.NeighboursSuffice | src/syscall/mm.c:308-327 | another entry touches a block of an entry exactly when a tree neighbour does at its first or last block |
| PageMap.RangeExact | src/syscall/mm.c:1312-1325 | the pages of an accepted range, and the one range that stands for the whole space |
| PageMap.RangeOkIff | src/syscall/mm.c:1318-1320 | a range is accepted exactly if the address behind it lies in the address space, without wrap |
| PageMap.AlignToPageIs | src/syscall/mm.c:102 | the least multiple of the page size that is not below, or 0 if that is no 32-bit number |
| PageMap.AtIndex | src/syscall/mm.c:268-278 | the map says of a page what the entry covering it says |
| MemoryMap.CutSame | src/syscall/mm.c:280-294 | both parts of a split entry say of every page what the entry did, file page included |
| MemoryMap.WildGone | src/syscall/mm.c:320-327 | the condition under which the count wraps is carried exactly through the freeing of one entry |
| MemoryMap.TowardTrans | src/syscall/mm.c:1332-1384 | the rounds of munmap add up |
| MemoryMap.AcceptedIsMapped | src/syscall/mm.c:1492-1515 | an accepted mprotect range is mapped throughout, unless it begins at page 0 and no entry does |
| MemoryMap.RefusedInside | src/syscall/mm.c:1502-1505 | a mapped range is refused exactly if it begins inside an entry |
| MemoryMap.WholeBlocksApart | src/syscall/mm.c:446-468 | a free run of whole blocks shares no block with any entry |
| MemoryMap.Mm.Split | src/syscall/mm.c:280-294 | the map stays the same and both parts hold the file |
| MemoryMap.Mm.FreeBlocks | src/syscall/mm.c:296-340 | of the blocks of the entry exactly those are released that no other entry touches; it does not end exactly if the count of blocks wraps |
| MemoryMap.Mm.UnmapPages | src/syscall/mm.c:1327-1386 | it returns exactly if the range is not wild, and then exactly the range has gone, every other page keeps protection, file and file page, references match holders, sections are released exactly when unused, and removed code is reported |
| MemoryMap.Mm.Munmap | src/syscall/mm.c:1312-1396 | the argument checks, when the call returns, and the effect if it does |
| MemoryMap.Mm.CheckMapped | src/syscall/mm.c:1491-1515 | exactly which ranges the check of mprotect accepts |
| MemoryMap.Mm.ProtectPages | src/syscall/mm.c:1517-1549 | only protections in the range change, VirtualAlloc entries excepted |
| MemoryMap.Mm.Mprotect | src/syscall/mm.c:1472-1560 | each error, and the effect otherwise |
| MemoryMap.Mm.FindFreePages | src/syscall/mm.c:446-468 | the lowest run that fits, that is free, block-aligned if asked for, outside the last blocks of VirtualAlloc entries, and below the limit or at least below some entry; 0 exactly if there is none |
| MemoryMap.Mm.FindFreePagesTopdown | src/syscall/mm.c:471-496 | the highest run that fits, that is free, with a block-aligned end if asked for, and above the lower limit or at least above some entry; 0 exactly if there is none |
| MemoryMap.Mm.Mmap | src/syscall/mm.c:1114-1246 | exactly which calls get EINVAL, EBADF and ENOMEM, by their arguments and the map before; every other is placed, without MAP_FIXED at the lowest fitting run, or the highest from the top, and with it on exactly its range; each new page has its protection, flags, file and file page, nothing else changes but what had to be unmapped |
| CowProof.Isolation | src/syscall/mm.c:713-1099 | at every moment of every run of faults, permitted stores, forks, mmap, munmap, mprotect and exits over any number of processes, each memory equals that of the machine that copies everything at fork |
| CowProof.ActionRefines | src/syscall/mm.c:713-1099 | each action keeps the invariant that a permitted and hardware-writable page lives in a section held once, and refines the reference action |
| CowProof.WriteFaultOk | src/syscall/mm.c:864-899 | a write fault changes nobody's memory |
| CowProof.TakeOwnershipOk | src/syscall/mm.c:771-803 | afterwards the section has no other holder |
| CowProof.LoadDetachedOk | src/syscall/mm.c:844-862 | mapping a detached section gives no page both permissions |
| CowProof.OnDemandOk | src/syscall/mm.c:901-936 | a demand fault, served or not, loads what the process was to see |
| CowProof.ForkOk | src/syscall/mm.c:972-1099 | fork gives the child the parent's memory and leaves no page of the parent writable that may be written |
| CowProof.MapOk | src/syscall/mm.c:1262-1299 | mmap into a block sets up its own pages and nobody else's |
| CowProof.UnmapOk | src/syscall/mm.c:296-340 | munmap drops its pages only |
| CowProof.ProtectOk | src/syscall/mm.c:1517-1555 | mprotect changes protections only, and lets no shared page be written |
| CowProof.AloneIsOneHandle | src/syscall/mm.c:788-792 | a handle count of one means that no other process or block holds the section |
| CowProof.FaultServedIff | src/syscall/mm.c:864-970 | exactly which faults are served, for every page and access |
| CowProof.FaultOpens | src/syscall/mm.c:901-970 | an access that its entry allows would go through after its fault; the fault is refused exactly in a block without a section whose first page has no entry |
| CowProof.FaultStaysClosed | src/syscall/mm.c:864-970 | a store that its entry forbids stays impossible after a fault that is served, and no forbidden store and no read is served twice |
| CowProof.FaultRefused | src/syscall/mm.c:920-921 | the first store into a mapping that begins with the second page of its block is refused |
| CowLoose.StepLoose | src/syscall/mm.c:713-1099 | exactly which actions make a page writable for the hardware that its entry does not permit writing, and which end that |
| CowLoose.LooseIff | src/syscall/mm.c:713-1099 | over all runs, a page is in that state if and only if an mmap has duplicated its block and no write fault in the block, munmap or mprotect of the page has come since |
| CowLoose.ForkLeaksIff | src/syscall/mm.c:1076-1095 | after a fork some store of the parent reaches the child's memory if and only if the parent had such a page before |
| CowLoose.RunLeaksIff | src/syscall/mm.c:1076-1095 | over all runs, a fork leaks if and only if an earlier mmap of the parent is to blame |
| CowLoose.StepStray | src/syscall/mm.c:296-340 | exactly which actions leave a page without an entry open to stores; munmap closes its pages |
| CowLoose.StrayIff | src/syscall/mm.c:713-1099 | over all runs, which pages without an entry are open to stores |
| CowLoose.StepOneBlock | src/syscall/mm.c:675-769 | a section is never held for two different blocks |
| CowLoose.ReadOnlyLeak | src/syscall/mm.c:1076-1095 | a run after which the hardware lets a process store into a read-only page that another process sees |
| CowLoose.StorePrivateIff | src/syscall/mm.c:771-803 | the stores that the hardware lets through at a page are seen by nobody else if and only if no other process has a page at that place of the section |
| RbShape.HeightBound | src/lib/rbtree.c:122-208 | the colour rules bound the height by 2*log2(n+1) |
| RbShape.InsertedSorted | src/lib/rbtree.c:210-247 | inserting into a sorted sequence keeps it sorted and adds exactly one node |
| RbShape.WithoutSorted | src/lib/rbtree.c:371-420 | leaving one node out keeps the order |
| RbTree.RbTree.RotateLeft | src/lib/rbtree.c:32-57 | the rotated subtree is in place with all links both ways |
| RbTree.RbTree.RotateRight | src/lib/rbtree.c:59-84 | the mirror image |
| RbTree.RbTree.Exchange | src/lib/rbtree.c:86-120 | two nodes have changed places and colours, also when one is the other's child |
| RbTree.RbTree.ExchangeWithNext | src/lib/rbtree.c:373-379 | the node has taken its successor's place and has at most one child |
| RbTree.RbTree.AddFixup | src/lib/rbtree.c:122-208 | all colour rules hold again and the order is unchanged |
| RbTree.RbTree.Add | src/lib/rbtree.c:210-247 | search order, links and all rules are kept and exactly the new node is added, behind equal keys |
| RbTree.RbTree.RemoveFixup | src/lib/rbtree.c:249-369 | the missing black is made up for and the order is unchanged, with the removed leaf still standing in |
| RbTree.RbTree.Remove | src/lib/rbtree.c:371-420 | search order, links and all rules are kept and exactly the node has gone |
| RbTree.RbTree.LowerBound | src/lib/rbtree.c:439-458 | the least node not below the probe, or none |
| RbTree.RbTree.UpperBound | src/lib/rbtree.c:460-479 | the greatest node not above the probe, or none |
| RbTree.RbTree.First | src/lib/rbtree.c:481-489 | the first node in order |
| RbTree.RbTree.Next | src/lib/rbtree.c:517-531 | the next node in order, or none after the last |
| RbTree.RbTree.Walk | src/lib/rbtree.c:481-531 | first and next visit every node once in order |
| RbTree.RbTree.HeightIsLogarithmic | src/lib/rbtree.c:122-420 | every reachable tree is at most 2*log2(n+1) high |
| Futex.StepInv | src/syscall/futex.c:90-207 | every interleaving of waits, timeouts, interrupts, wakes and same-bucket requeues keeps the invariant |
| Futex.EventIffLeft | src/syscall/futex.c:106-124 | unless a waker is just notifying, a waiter's event is set exactly when its block has left the list; no other thread's event is set |
| Futex.NoLostWakeup | src/syscall/futex.c:160-207 | over any run: once a futex_wake has ended without being stopped by its limit, and while the word differs since it took the bucket, every waiter that compared the old value there has its event set, is being notified, or was requeued |
| FutexCalls.WaitDecides | src/syscall/futex.c:90-105 | over any run: a thread compares once while it holds the bucket; it returns 0 unqueued if the word differs, and else its block is the last of the list when it lets go and sleeps |
| FutexCalls.WaitReturns | src/syscall/futex.c:106-133 | it returns 0 only after taking its event, and EINTR or ETIMEDOUT only after giving up, and is not listed any more |
| FutexCalls.WakeIsScan | src/syscall/futex.c:136-207 | over any run, a wake or same-bucket requeue leaves, wakes in order and returns what one scan of the list it has locked does |
| Futex.RemoveSelfInv | src/syscall/futex.c:117-124 | a thread that gave up and was not woken finds its block in the list |
| Futex.BlocksAreAlive | src/syscall/futex.c:92-105 | a block in a list belongs to a thread that is still waiting |
| Futex.MutualExclusion | src/syscall/futex.c:58-67 | two threads never hold the same bucket |
| WaitSpec.ScanExact | src/syscall/futex.c:160-207 | exactly the first min(count, waiters) waiters are woken, in order; the rest stay or go in order to the new address, and no other waiter is touched |
| WaitSpec.ScanConserves | src/syscall/futex.c:160-207 | every wait block is kept, moved or woken, once |
| WaitSpec.RequeueEmpties | src/syscall/futex.c:176-193 | after a requeue no waiter is left on the address, unless it was requeued to itself |
| WaitList.List.Add | src/lib/list.h:61-77 | the node is linked both ways behind the last |
| WaitList.List.Remove | src/lib/list.h:79-90 | the node is unlinked and all others stay linked |
| WaitList.WakeRequeue | src/syscall/futex.c:136-207 | the lists, the addresses and the order of events after a wake or requeue, in the same bucket or across two, and EAGAIN with nothing changed when the compared word differs |
| Heap.KernelHeap.AllocBucket | src/heap.c:95-112 | all slots of the new bucket are threaded together |
| Heap.KernelHeap.Kmalloc | src/heap.c:114-163 | a slot of the right pool that was not live becomes the only new live one; too large a size gives null |
| Heap.KernelHeap.Kfree | src/heap.c:165-216 | the slot alone is not live any more, and its bucket leaves the chain exactly if it was the last live one; nothing happens where the size's pool has no bucket for the address |
| Heap.NoneLiveIff | src/heap.c:200-210 | ref_cnt is zero exactly if every slot is free |
| Heap.SlotsAre | src/heap.c:102-111 | the slots, each once, in order, and all of them |
| Heap.OverrunIff | src/heap.c:102-111 | objects of a bucket do not overlap, and exactly the last one reaches beyond the block, in every pool |
| Heap.Updated | src/heap.c:114-216 | changing one bucket leaves all others partitioned |
| Signal.StepInv | src/syscall/sig.c:128-421 | every interleaving of the signal thread with the steps of dbt_set_return_addr and of the handlers keeps the invariant |
| Signal.JumpEntersIff | src/dbt/x86.c:748-754 | a thread's next transfer to user code enters the trampoline exactly if a signal has been given to it |
| Signal.NotOverwritten | src/syscall/sig.c:151-165 | a signal given to a thread stays there until its handler is set up |
| Signal.TrampolineOnce | src/dbt/x86.c:2102-2129 | the trampoline is entered only with a signal in hand, and left only for its handler |
| Signal.Accounted | src/syscall/sig.c:167-178 | each raised signal is queued, worked on, pending, given, handled, dropped for want of a handler, or merged |
| Signal.FatesOnward | src/syscall/sig.c:128-239 | no signal is lost on the way or handled twice |
| SignalRuns.FateReasons | src/syscall/sig.c:128-178 | a signal is given only to a thread that takes it, dropped only without a handler, and pending only with one when no thread takes it |
| SignalRuns.AnnouncesIff | src/syscall/sig.c:392-402 | pending signals are announced exactly by the mask changes that let one of them through, those of rt_sigsuspend excepted |
| SignalRuns.InOrder | src/syscall/sig.c:180-239 | signals are worked on in the order in which they were raised |
| Signal.SigReturnRestores | src/syscall/sig.c:404-421 | nested sigreturns restore the masks saved when their handlers were set up, whatever masks and handlers are changed in between |
| SignalRuns.HandlerBlocks | src/syscall/sig.c:329-337 | from its set-up to the sigreturn that matches it, a handler is not interrupted by its own signal, one in its sa_mask or one blocked before, and its thread takes exactly the others |
| SignalRuns.MaskHolds | src/syscall/sig.c:719-771 | a mask that has been set holds until the next change |
| SignalRuns.ActionHolds | src/syscall/sig.c:665-683 | an action that has been set holds until the next one for its signal |
| Signal.LeftBehindIff | src/syscall/sig.c:331-402 | with no announcement queued and the pending signals not being gone through, a thread could take a pending signal if and only if it has set up a handler or entered or left rt_sigsuspend since they were last gone through, was given none and set no mask since, and came out of that accepting and unmasked |
| Signal.LeftBehind | src/syscall/sig.c:331-337 | a run from a fresh start that ends with a pending, handled, unmasked signal, an accepting thread, and nothing queued |
| Utf.RoundTrip | src/str.c:285-380 | UTF-8 to UTF-16 and back is the identity on all sequences of scalar values in shortest form |
| Utf.Read8Back | src/str.c:168-230 | reading back the shortest form of a scalar value gives the value |
| Utf.Read16Back | src/str.c:244-275 | the same for one or two units of UTF-16 |
| Utf.Enc8Forms | src/str.c:200-230 | the bytes written lie in the ranges of RFC 3629, stand for the value, and are the shortest form |
| Utf.Read8Iff | src/str.c:168-200 | which bytes are read, and that well-formed ones are read as the value they stand for |
| Utf.Enc16Forms | src/str.c:260-275 | one unit, or a high and a low surrogate that stand for the value |
| Utf.Read16Iff | src/str.c:244-258 | exactly a unit that is no surrogate, or a high one and a low one, is read |
| Utf.Utf8ToUtf16 | src/str.c:285-349 | the units written, the error cases, and the length alone without a buffer |
| Utf.Utf16ToUtf8 | src/str.c:351-417 | what is written, with and without enough room |
| Utf.Size8 | src/str.c:368-378 | the sizing pass gives the length of the whole output |
| Utf.FittingIff | src/str.c:200-230 | nothing is lost if and only if there is room for all of it |
| Utf.NameAllowed | src/str.c:101-135 | a filename holds no character that Windows forbids, and everything else stays as it is |
| Utf.ShortBuffer | src/str.c:200-230 | a character that does not fit is lost while the one behind it is written |
| Utf.NameBackIff | src/str.c:316-417 | which characters survive the way to a filename and back |
| Utf.FilenameRoundTripIff | src/str.c:316-417 | the filename pair round-trips exactly on strings of such characters |

## Left out

- The signal-context fixups of the translator (`dbt_*_fixup` and the `context` branches of `dbt_translate`): some of them do not restore ecx or read at the wrong base.
- Inside the simulation, GS-relative instructions other than calls and jumps, segment moves, CPUID and x87 escapes count as straight-line instructions of at most 128 bytes, which is more than any of their handlers writes, and the push of a GS-relative operand of a call or jump is one operation (`GsRewrite.PushGsCorrect` proves its code).
- `call esp`, whose code the program itself calls wrong, GS-relative operands with esp as base in calls and jumps, privileged instructions, and GS rewriting with high-byte registers or undeclared registers.
- GsRewrite.RewriteCorrect: speaks of operands whose base is not esp, because the code written for that base is no instruction (`GsRewrite.BaseAddedIff`).
- DbtSteps.SieveReturns: the step of the sieve fallback needs room for the new stub, because `dbt_gen_sieve` does not check for it.
- DbtSimulation.RunSimulated: the bytes below the guest's stack pointer may change between two instructions, because translated code and the assembly stubs use them; and the guest's code changes only at a system call that flushes.
- DbtTranslator.Dbt.CodeChanged: the pc tree is a set here, and its lower bound stands for the search that module RbTree proves.
- MAP_POPULATE, `brk`, `mremap`, `mm_reset`, exhaustion of map entries, partial unmaps of VirtualAlloc memory and the counts of the section tables.
- MemoryMap.Mm.Mmap: when the unmapping of a fixed range does not return, nothing is said; the set-up of blocks that are allocated already belongs to module Cow, and recursive unmaps from `vfs_release` do not happen.
- Cow: a fault stands also for one that is not served, whatever the process does then; an action concerns one block; the order of blocks inside one system call, VirtualAlloc and MAP_SHARED memory, and failing system calls are not modelled.
- RbTree: `rb_find`, `rb_last` and `rb_prev` are mirror images or special cases of what is there; a comparison of equal keys that are different nodes only matters to `rb_add`.
- Futex.StepInv: has no cross-bucket requeue, after which a timeout uses the wrong bucket (line 121), and no failed compare, which unlocks twice when the buckets are equal (lines 155-156); `WaitList.WakeRequeue` does cover both.
- Heap: claims are about the addresses of slots, and `mm_mmap` always finds a block.
- Signal: signal numbers are below 64; default actions and ignored signals end in one fate; which handler runs after a change of handlers during its set-up, alternate stacks, threads that start or exit and child processes are not modelled.
- Utf.Utf16ToUtf8: code points come from the reader, so they are scalar values.
- Console, sockets, file systems, pipes, ELF loading, instruction tables, logging and the other system calls.
