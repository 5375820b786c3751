# Verified model of a CVA6 contest drop

The repository holds two bodies of code worth proving: the bare-metal benchmark kernels under
`sw/app`, and the Spike RISC-V simulator under `tb/riscv-isa-sim`. This project models the hard
core of both in Dafny and proves what that code is for. `dafny verify dfyconfig.toml` checks
everything.

| file | models |
|---|---|
| `Wrappers.dfy`, `Words.dfy`, `Arith.dfy`, `Bytes.dfy` | what is shared: optional values, blocks of 64-bit words, products and quotients, little-endian words |
| `Pmp.dfy`, `PmpTest.dfy` | physical memory protection in the MMU, and the independent decoder and encoder of the test program |
| `Mmu.dfy`, `Tlb.dfy`, `TlbRuns.dfy` | address translation, the TLB that must not be noticed, and whole runs through it |
| `RadixSort.dfy`, `QuickSort.dfy` | the two sorting benchmarks |
| `MulHi.dfy` | high words of 64-bit products |
| `Barrier.dfy`, `BarrierFair.dfy`, `Vvadd.dfy` | the sense-reversing barrier, its fairness, and the parallel vector addition that relies on it |
| `Insn.dfy`, `AbstractCommand.dfy`, `CommandInputs.dfy` | instruction encoders and decoders, the compiler from abstract debug commands to instructions, and some of its inputs |
| `DebugModule.dfy`, `DebugDevice.dfy`, `Handshake.dfy`, `HandshakeInputs.dfy` | the debug module as a specification, as an object, and interleaved with any number of harts, with a run that goes wrong |
| `Jtag.dfy` | the JTAG port in front of the debug module |
| `MatMul.dfy` | register- and cache-blocked matrix multiplication |
| `Towers.dfy` | the Towers of Hanoi on recycled list nodes |
| `CacheSim.dfy` | the cache simulator, set-associative and fully associative, in a hierarchy |

Code that works by changing things step by step is modelled by methods on arrays and classes,
each proved equal to a function of the old state; the properties are then proved of that function,
or of every run of a state machine. Where the code is concurrent (barrier, parallel addition, debug
handshake) one step is one atomic memory operation, and the theorems quantify over every schedule.

Where the code does something that its comments, or a reader, would not expect, the model follows
the code and the property is stated with its exact condition:

- The homogeneity test also fails on an empty top-of-range entry whose bounds both lie strictly
  inside the block, although it covers nothing: the test passes if and only if no entry cuts the
  block and none is of that kind (`Pmp.HomogeneousIsExact`; `Pmp.EmptyRangeSpoils` is an input).
- The test program and the simulator judge every load alike but for two kinds of 8-byte loads: over
  an empty top-of-range entry in the middle of the double word, and at the end of the address space
  over a four-byte entry for the last word, where the test's window wraps
  (`PmpTest.TestPredictsSimulator`, `PmpTest.HalvesAgree`; `PmpTest.MisjudgedInputs` has one input
  of each kind).
- A range that ends at or runs past the top of the address space is lost: the top-of-range encoding
  covers none of it, and the test's own window is empty in either encoding. A range survives byte for
  byte if and only if it ends below the top (`PmpTest.RangeRoundTrip`, `PmpTest.NapotRoundTripTest`;
  `PmpTest.RangeAtTopIsLost` is an input). The naturally aligned encoding is right in the MMU for all
  ranges (`PmpTest.NapotRoundTripMmu`).
- The three tags of a TLB slot share one entry. With MPRV set, fetches and loads can be translated
  by different schemes, and a refill for one then leaves the tag of the other with a wrong entry. An
  access keeps its slot trustworthy if and only if the tags that survive the refill go with the new
  entry (`Tlb.AccessKeeps`); with MPRV off they always do (`Tlb.NoClash`, `Tlb.WithoutMprv`);
  `TlbRuns.MprvClashes` is an input for which they do not.
- Writes to `satp` and `sfence.vma` flush the TLB; the flushes at changes of privilege and of
  `mstatus` are commented out (`tb/riscv-isa-sim/riscv/processor.cc:233-237,376-378`). Over any change
  without a flush a slot stays trustworthy if and only if, for each of its live tags, the slow path
  still finds the page that the tag names at the cached distance (`Tlb.ChangeKeeps`; its first byte
  is enough if the protection entries are the same, `Tlb.FirstByteDecides`).
  `TlbRuns.PrivilegeNeedsFlush` is an input for which it does not.
- The flush at a change of the triggers is commented out as well
  (`tb/riscv-isa-sim/riscv/processor.cc:844-849`). While every live tag of a kind with armed triggers
  is marked, an access of that kind consults the triggers exactly when it is a load or store that does
  not fault, or a fetch from memory whose page protection does not cut (`Tlb.TriggersAsked`).
  `TlbRuns.TriggerNeedsFlush` is a load that passes by them after such a change, and
  `TlbRuns.DeviceFetchUnseen` a fetch that they never see.
- An abstract CSR command borrows `s0` and keeps a copy in `dscratch`. It puts another value into
  `s0` in three cases: a write that loads its argument and then traps because the CSR is not writable
  leaves the argument there; a write of `dscratch` itself leaves the written value; a 64-bit read of
  another CSR on a 32-bit hart, which traps at the store, leaves that CSR's value. `s0` is kept if and
  only if none of these applies, or the value happens to be that of `s0` (`AbstractCommand.S0Kept`,
  `AbstractCommand.RegistersAfter`; `CommandInputs.S0Lost` has an input for each case).
- Writing a floating-point register masks `mstatus` with FS and SD instead of setting them
  (`tb/riscv-isa-sim/riscv/decode.h:170`), so it keeps `mstatus` only when no other bit was set
  (`AbstractCommand.FprWriteKeepsMstatus`; `CommandInputs.FloatWriteClears` is an input).
- Resetting the debug module forgets `busy` but not the GO flag, so the handshake survives a reset
  exactly when no command is outstanding (`Handshake.ResetKeepsOnlyIdle`). A write to `dmcontrol`,
  which may reset the module, select another hart, and resume or reset harts, keeps the handshake if
  and only if a condition on the state and the value written holds (`Handshake.ControlKeeps`).
  `HandshakeInputs.DisorderlyInput` is a run after which either breaks it.
- Deactivating the debug module leaves the other fields of `dmcontrol` in place and acts on them
  once more: exactly the harts whose reset they still ask for are reset again
  (`Handshake.DeactivationRepeats`).
- The fixed stack of the quicksort, 50 words, holds every array of fewer than 12 * 2^24 - 1 elements
  (`QuickSort.FiftyWordsSuffice`), and every increasing array of that size or more overflows it: for
  such arrays a stack of any size overflows if and only if it is smaller than the condition asks
  (`QuickSort.SortOrOverflow`).

## Model

| member | source | states |
|---|---|---|
| `Pmp.NapotMaskSelects` | tb/riscv-isa-sim/riscv/mmu.cc:190-191 | the mask made by carry propagation selects exactly the address bits above the naturally aligned region, for every pmpaddr, the all-ones one included |
| `Pmp.MatchesIsCovers` | tb/riscv-isa-sim/riscv/mmu.cc:186-195 | the computed match is membership in the region that the entry denotes: TOR half-open from the preceding address, NA4 four bytes, NAPOT the aligned power-of-two block |
| `Pmp.PmpOk` | tb/riscv-isa-sim/riscv/mmu.cc:176-208 | the search returns the verdict of the first entry that covers the byte, and machine mode's own permission when none does |
| `Pmp.PmpHomogeneous` | tb/riscv-isa-sim/riscv/mmu.cc:210-247 | the search returns the conjunction of the per-entry tests, each against the base left by the entry before |
| `Pmp.HomogeneousIsUniform` | tb/riscv-isa-sim/riscv/mmu.cc:176-247 | if an aligned power-of-two block passes the test, every byte of it gets the verdict of its first byte, for every access type and mode and any mix of entries |
| `Pmp.UniformFrom` | tb/riscv-isa-sim/riscv/mmu.cc:182-207 | the same from any entry of the priority order onward |
| `Pmp.HomogeneousIsExact` | tb/riscv-isa-sim/riscv/mmu.cc:210-247 | for any entries the test passes if and only if no entry covers part of the block but not all of it, and no empty top-of-range entry has both bounds strictly inside the block |
| `Pmp.EntryExact` | tb/riscv-isa-sim/riscv/mmu.cc:223-241 | the same of one entry, with a byte that it separates from the first when it cuts the block |
| `Pmp.EmptyTor` | tb/riscv-isa-sim/riscv/mmu.cc:227-232 | an empty range fails the test if and only if both its bounds lie strictly inside the block |
| `Pmp.EmptyRangeSpoils` | tb/riscv-isa-sim/riscv/mmu.cc:227-232 | a concrete empty range fails the test although it covers no byte |
| `Pmp.ApartIsOutside` | tb/riscv-isa-sim/riscv/mmu.cc:237-237 | the quotient test asks whether the entry's address lies outside the block |
| `Pmp.EntrySplits` | tb/riscv-isa-sim/riscv/mmu.cc:223-241 | an entry that fails the test covers one byte of the block and not another, unless it is an empty range |
| `Pmp.HomogeneousInherits` | tb/riscv-isa-sim/riscv/mmu.cc:210-247 | homogeneity passes to every aligned power-of-two part of the block |
| `PmpTest.DecodeNapot` | sw/app/pmp/pmp.c:71-82 | the trailing-ones loop ends with the low ones cleared and the range doubled once for each, for every register value |
| `PmpTest.TestPmpOk` | sw/app/pmp/pmp.c:66-99 | counting hits predicts no trap exactly when all words of the access hit the decoded window or none does |
| `PmpTest.DoubleWord` | tb/riscv-isa-sim/riscv/mmu.cc:210-247 | the homogeneity test passes a double word if and only if the entry covers both halves or neither, and is not an empty range in the middle |
| `PmpTest.SimulatorVerdict` | tb/riscv-isa-sim/riscv/mmu.cc:47-62 | with the background entry programmed, the MMU grants a supervisor load of 1, 2 or 4 bytes, and one of 8 bytes exactly when the entry passes as above |
| `PmpTest.HalvesAgree` | sw/app/pmp/pmp.c:84-98 | the test's window separates the halves of a double word exactly when the MMU's region does, if and only if the window does not wrap: the last double word, and a four-byte entry for its upper half |
| `PmpTest.TestPredictsSimulator` | sw/app/pmp/pmp.c:66-99 | for every readable entry and every aligned supervisor load of 1, 2, 4 or 8 bytes the test's prediction is the simulator's verdict, if and only if the load is none of the two kinds of double word named above |
| `PmpTest.MisjudgedInputs` | sw/app/pmp/pmp.c:84-98 | an input of each of the two kinds: the test expects no trap where the simulator traps |
| `PmpTest.NapotRoundTripMmu` | sw/app/pmp/pmp.c:153-160 | the register written for an aligned power-of-two range makes the MMU cover exactly the bytes of the range |
| `PmpTest.NapotRoundTripTest` | sw/app/pmp/pmp.c:153-160 | the test's window holds exactly the bytes of the range it encoded, for all bytes, if and only if the range does not end at the top of the address space |
| `PmpTest.RangeRoundTrip` | sw/app/pmp/pmp.c:144-151 | for a range of whole words: the MMU's entry pair covers, and the test's window holds, exactly the bytes of the range, each if and only if the range does not end at the top of the address space |
| `PmpTest.RangeAtTopIsLost` | sw/app/pmp/pmp.c:144-160 | an input: for the last sixteen bytes the entry pair does not cover the first of them and the test hits it with neither encoding |
| `Mmu.Walk` | tb/riscv-isa-sim/riscv/mmu.cc:249-319 | the page-table loop returns what the recursive definition of the walk gives, or the same fault, for every mode, table and access |
| `Mmu.WalkFromSamePage` | tb/riscv-isa-sim/riscv/mmu.cc:267-311 | two addresses of one page walk to the same result |
| `Mmu.WalkFromAnyAccess` | tb/riscv-isa-sim/riscv/mmu.cc:282-310 | two kinds of access that both succeed reach the same page |
| `Mmu.FrameForm` | tb/riscv-isa-sim/riscv/mmu.cc:58-58 | the physical address is the frame plus the page offset |
| `Mmu.FrameOfPage` | tb/riscv-isa-sim/riscv/mmu.cc:249-311 | one page has one frame |
| `Mmu.FrameOfAnyAccess` | tb/riscv-isa-sim/riscv/mmu.cc:249-311 | the frame does not depend on the kind of access |
| `Tlb.Translate` | tb/riscv-isa-sim/riscv/mmu.cc:47-62 | the slow path is the walk, then the protection of the byte, then the homogeneity of the access, with the privilege that MPRV gives to loads and stores outside debug mode |
| `Tlb.FillServes` | tb/riscv-isa-sim/riscv/mmu.cc:165-173 | a translated access to a homogeneous page of memory makes the cached entry right, for the physical and for the host address, for every aligned access of that kind in the page |
| `Tlb.OneOffset` | tb/riscv-isa-sim/riscv/mmu.cc:171-172 | kinds of access that are translated by the same scheme are served by one entry only |
| `Tlb.RefillKeeps` | tb/riscv-isa-sim/riscv/mmu.cc:148-174 | whatever the slot held, a refill keeps every live tag naming the one page that its entry serves, if and only if the tags that survive the refill go with the new entry |
| `Tlb.AccessKeeps` | tb/riscv-isa-sim/riscv/mmu.h:82-101 | an access, hit or miss, traced or not, keeps its slot trustworthy if and only if it does not refill a slot in which a tag survives that goes with another entry |
| `Tlb.NoClash` | tb/riscv-isa-sim/riscv/mmu.cc:148-174 | if all kinds of access are translated by one scheme, no access ever makes such a clash |
| `Tlb.WithoutMprv` | tb/riscv-isa-sim/riscv/mmu.cc:52-56 | with MPRV clear, or in debug mode, they are |
| `Tlb.ChangeKeeps` | tb/riscv-isa-sim/riscv/mmu.cc:47-62 | over any change without a flush, of privilege, mstatus, satp, page tables or protection, a slot stays trustworthy if and only if one look at the slow path for each live tag still finds the page the tag names, as a whole, at the cached distance |
| `Tlb.FirstByteDecides` | tb/riscv-isa-sim/riscv/mmu.cc:47-62 | with the same protection entries a look at the first byte of the page decides |
| `Tlb.TriggersAsked` | tb/riscv-isa-sim/riscv/mmu.h:82-136 | with armed triggers and marked tags, an access consults the triggers if and only if it is a load or store that does not fault, or a fetch from memory whose page protection does not cut |
| `Tlb.FlushedIsOk` | tb/riscv-isa-sim/riscv/mmu.cc:28-35 | a flushed TLB is trustworthy under every machine, and its tags are marked whatever is armed |
| `TlbRuns.MprvClashes` | tb/riscv-isa-sim/riscv/mmu.cc:154-173 | an input with MPRV set: after a fetch from a page and a load from it the fetch tag still matches, with the physical address of the load |
| `TlbRuns.PrivilegeNeedsFlush` | tb/riscv-isa-sim/riscv/processor.cc:233-237 | an input: after a change from machine to supervisor mode a page cached before it is still hit, where the page tables fault |
| `TlbRuns.TriggerNeedsFlush` | tb/riscv-isa-sim/riscv/processor.cc:844-849 | an input: a load trigger is armed and a load hits an unmarked tag without consulting it |
| `TlbRuns.DeviceFetchUnseen` | tb/riscv-isa-sim/riscv/mmu.h:318-336 | a fetch from a device does not consult the triggers, armed or not |
| `Tlb.HitIsTransparent` | tb/riscv-isa-sim/riscv/mmu.h:82-101 | a tag that matches implies that the slow path succeeds, at exactly the physical and the host address that the cached entry gives |
| `Tlb.TlbCache.FlushTlb` | tb/riscv-isa-sim/riscv/mmu.cc:28-35 | every tag of every slot becomes invalid |
| `Tlb.TlbCache.RefillTlb` | tb/riscv-isa-sim/riscv/mmu.cc:148-174 | the new tag and entry arrays, slot by slot; the entry holds both distances; the tag of this access is set only when protection does not cut the page |
| `Tlb.TlbCache.Access` | tb/riscv-isa-sim/riscv/mmu.h:82-136 | hit or miss, the access ends at the physical and host address, the device or the fault that the slow path gives, consults the triggers or not as specified, and leaves exactly the specified slots |
| `TlbRuns.Run` | tb/riscv-isa-sim/riscv/mmu.cc:28-174 | every sequence of accesses, flushes, changes without a flush and changes of the triggers ends access by access where the slow path does, and no access slips past armed triggers, if step by step no access clashes, every slot survives each change without a flush, and tags are marked when triggers are armed |
| `TlbRuns.StepKeeps` | tb/riscv-isa-sim/riscv/mmu.cc:148-174 | the first of these conditions is exact: an access keeps the whole TLB trustworthy if and only if it does not clash |
| `TlbRuns.ChangeKeepsAll` | tb/riscv-isa-sim/riscv/mmu.cc:47-62 | so is the second: a change without a flush keeps the whole TLB trustworthy if and only if every slot survives it |
| `TlbRuns.PlainIsTrusted` | tb/riscv-isa-sim/riscv/mmu.cc:28-174 | with MPRV off and a flush at every change, all of them hold for every sequence of accesses |
| `RadixSort.PassPermutes` | sw/app/rsort/rsort.c:92-112 | one pass permutes |
| `RadixSort.PassStable` | sw/app/rsort/rsort.c:92-112 | one pass keeps the order of elements that agree on the digit |
| `RadixSort.BucketsSort` | sw/app/rsort/rsort.c:64-119 | sorted by the low bits before a pass, sorted by eight bits more after it |
| `RadixSort.PassesSort` | sw/app/rsort/rsort.c:64-119 | after the passes below bit k the sequence is a permutation sorted by its low k bits |
| `RadixSort.AllPassesSort` | sw/app/rsort/rsort.c:64-119 | after four passes it is sorted |
| `RadixSort.Histogram` | sw/app/rsort/rsort.c:66-81 | the unrolled loop counts every digit, for every length, shorter than four included |
| `RadixSort.PrefixSum` | sw/app/rsort/rsort.c:83-90 | the counters become the ends of the buckets |
| `RadixSort.ScatterFour` | sw/app/rsort/rsort.c:92-110 | four elements placed at once, all counters taken before anything is written, extend the stable placement; every index is in bounds |
| `RadixSort.SortPass` | sw/app/rsort/rsort.c:66-112 | one round leaves the stable sort by one digit in the other buffer |
| `RadixSort.Sort` | sw/app/rsort/rsort.c:55-122 | the input buffer ends up holding the sorted permutation; the final copy is unreachable |
| `QuickSort.InsertionSort` | sw/app/qsort/qsort_main.c:64-80 | the range becomes a sorted permutation of itself and nothing else changes |
| `QuickSort.ScanUp` | sw/app/qsort/qsort_main.c:126-126 | the scan without a bounds check stops at or before a sentinel, leaving only smaller elements behind |
| `QuickSort.ScanDown` | sw/app/qsort/qsort_main.c:127-127 | likewise downwards |
| `QuickSort.MedianOfThree` | sw/app/qsort/qsort_main.c:113-116 | the three sampled elements end up ordered around the pivot, which makes them sentinels |
| `QuickSort.Partition` | sw/app/qsort/qsort_main.c:118-134 | the scans stay in the range; nothing before the cut exceeds the pivot, nothing after it is below; an increasing range is cut in the middle and left as it was |
| `QuickSort.SplitRange` | sw/app/qsort/qsort_main.c:132-151 | a partitioned pending range is replaced by its two sides, in either order |
| `QuickSort.SidesShrunk` | sw/app/qsort/qsort_main.c:137-151 | pushing the larger side halves what the next stack entry can cover |
| `QuickSort.FiftyWordsSuffice` | sw/app/qsort/qsort_main.c:48-48 | 50 words are sufficient for every array of fewer than 12 * 2^24 - 1 elements, in particular for all below 11 * 2^24 |
| `QuickSort.SizingRule` | sw/app/qsort/qsort_main.c:45-46 | the rule in the comment, twice the binary logarithm of the size, is sound |
| `QuickSort.SortOrOverflow` | sw/app/qsort/qsort_main.c:89-154 | with a stack of any size: terminates and either sorts or stops at the first push that finds no room; it sorts whenever the stack is sufficient, and an increasing array overflows if and only if it is not |
| `QuickSort.SortWithStack` | sw/app/qsort/qsort_main.c:89-154 | with a sufficient stack of any size: terminates, stays in the stack, and sorts |
| `QuickSort.Sort` | sw/app/qsort/qsort_main.c:89-154 | the benchmark's sort leaves a sorted permutation |
| `MulHi.MulHuCorrect` | tb/riscv-isa-sim/riscv/mulhi.h:8-27 | the unsigned high word is the floor of the exact product over 2^64, and no intermediate sum wraps |
| `MulHi.MulHCorrect` | tb/riscv-isa-sim/riscv/mulhi.h:29-34 | the signed one, for all operands, the most negative and zero included |
| `MulHi.MulHsuCorrect` | tb/riscv-isa-sim/riscv/mulhi.h:36-41 | the mixed one |
| `Barrier.InvStep` | sw/app/common/util.h:44-62 | every atomic step of every thread keeps the barrier's invariant |
| `Barrier.Safety` | sw/app/common/util.h:44-62 | under every schedule and unbounded reuse: no thread has left a barrier that another has not entered, phases differ by at most one, and the counter stays between 0 and the number of threads |
| `Barrier.SomeoneMoves` | sw/app/common/util.h:44-62 | when all threads are inside, some thread's next step changes the state |
| `Barrier.StepsRunOut` | sw/app/common/util.h:44-62 | without a new entry only a bounded number of steps can change the state |
| `BarrierFair.AnotherBarrier` | sw/app/common/util.h:44-62 | whatever has gone before, 3n + 2 rounds in which every one of n threads steps at least once, in any order, complete another barrier |
| `BarrierFair.EveryoneReleased` | sw/app/common/util.h:44-62 | twice as many release every thread from every barrier that it had entered |
| `Barrier.AllOthersWait` | sw/app/common/util.h:53-53 | the thread that counts last knows that all others wait in the same barrier |
| `Vvadd.VerifyDouble` | sw/app/common/util.h:28-42 | 0 exactly when the vectors agree, else one more than the first index that differs |
| `Vvadd.AddShare` | sw/app/mt-vvadd/vvadd.c:9-18 | one core adds exactly its residue class of the indices, in place or not |
| `Vvadd.InvStep` | sw/app/mt-vvadd/mt-vvadd.c:47-78 | every step of every core keeps the invariant that ties each core's place in the program to the barrier and to the contents of the result vector |
| `Vvadd.EndToEnd` | sw/app/mt-vvadd/mt-vvadd.c:47-78 | under every schedule: exit code 0 means that the vector holds the sums and each index was stored to exactly once in each addition; another code is the first index at which the reference differs from the sums |
| `Vvadd.ChecksReadSums` | sw/app/mt-vvadd/mt-vvadd.c:56-59 | whenever core 0 checks, every element it can read is a finished sum |
| `Vvadd.SomeoneWorks` | sw/app/mt-vvadd/mt-vvadd.c:47-78 | until some core exits, some core's step changes the state |
| `Insn.LoadRoundTrip` | tb/riscv-isa-sim/riscv/opcodes.h:73-89 | opcode, destination, base and sign-extended offset of lw, ld, flw and fld are decoded as encoded |
| `Insn.StoreRoundTrip` | tb/riscv-isa-sim/riscv/opcodes.h:33-51 | likewise sw and sd |
| `Insn.StoreFpRoundTrip` | tb/riscv-isa-sim/riscv/opcodes.h:128-146 | likewise fsw and fsd |
| `Insn.JalRoundTrip` | tb/riscv-isa-sim/riscv/opcodes.h:16-24 | destination and every even 21-bit offset of jal are decoded as encoded |
| `Insn.CsrwRoundTrip` | tb/riscv-isa-sim/riscv/opcodes.h:109-112 | source and CSR number of csrw are decoded as encoded |
| `Insn.CsrrRoundTrip` | tb/riscv-isa-sim/riscv/opcodes.h:123-126 | destination and CSR number of csrr are decoded as encoded |
| `Insn.DecodeFsd` | tb/riscv-isa-sim/riscv/decode.h:73-84 | the encoded fsd matches no other of the modelled instructions |
| `Insn.DecodeCsrr` | tb/riscv-isa-sim/riscv/decode.h:73-84 | likewise csrr |
| `Insn.DecodeJal` | tb/riscv-isa-sim/riscv/decode.h:78-79 | likewise jal |
| `Bytes.ReadWritten` | tb/riscv-isa-sim/riscv/debug_module.cc:218-235 | a word written little-endian is read back, and other words keep their values |
| `Bytes.StoreWord` | tb/riscv-isa-sim/riscv/debug_module.cc:218-225 | the four byte stores are exactly the word update |
| `AbstractCommand.FitsInFiveWords` | tb/riscv-isa-sim/riscv/debug_module.cc:511-629 | no command emits more than five words |
| `AbstractCommand.RunTail` | tb/riscv-isa-sim/riscv/debug_module.cc:623-629 | the program stops at ebreak, or lands exactly on the first word of the program buffer |
| `AbstractCommand.LoadRequest` | tb/riscv-isa-sim/riscv/debug_module.cc:552-568 | the load emitted for a transfer size carries out a register write of that size |
| `AbstractCommand.StoreRequest` | tb/riscv-isa-sim/riscv/debug_module.cc:552-568 | the store emitted carries out a register read of that size |
| `AbstractCommand.LoadFpRequest` | tb/riscv-isa-sim/riscv/debug_module.cc:576-587 | likewise for a floating-point write, traps included |
| `AbstractCommand.StoreFpRequest` | tb/riscv-isa-sim/riscv/debug_module.cc:589-601 | likewise for a floating-point read |
| `AbstractCommand.CsrWriteRuns` | tb/riscv-isa-sim/riscv/debug_module.cc:514-547 | the five-instruction CSR write does what is requested of it, step by step through dscratch, traps included |
| `AbstractCommand.CsrReadRuns` | tb/riscv-isa-sim/riscv/debug_module.cc:514-547 | likewise the CSR read |
| `AbstractCommand.CompiledMeaning` | tb/riscv-isa-sim/riscv/debug_module.cc:500-633 | for every accepted command, any old abstract code and any registers: fetching, decoding and executing the emitted words carries out exactly the request on registers, CSRs and data words, and ends as asked |
| `AbstractCommand.RegistersAfter` | tb/riscv-isa-sim/riscv/debug_module.cc:511-629 | after running the compiled code, completed or trapped, every general register but the target of a write and s0 is as before, and these hold exactly what is stated |
| `AbstractCommand.S0Kept` | tb/riscv-isa-sim/riscv/debug_module.cc:514-547 | a CSR command keeps the value of s0 if and only if it does not put another one there: the argument of a write refused after loading it, the value written to dscratch, the CSR of a read too wide for the hart |
| `CommandInputs.S0Lost` | tb/riscv-isa-sim/riscv/debug_module.cc:514-547 | an input for each of the three |
| `AbstractCommand.FloatsAfter` | tb/riscv-isa-sim/riscv/debug_module.cc:572-601 | likewise every floating-point register but the target of a write that does not trap, which holds the boxed argument |
| `AbstractCommand.CsrsKept` | tb/riscv-isa-sim/riscv/debug_module.cc:511-629 | likewise, completed or trapped, no CSR changes but the target of a write, dscratch, and mstatus on a floating-point write |
| `AbstractCommand.FprWriteKeepsMstatus` | tb/riscv-isa-sim/riscv/decode.h:170-172 | a floating-point write keeps mstatus if and only if no bit besides FS and SD was set |
| `CommandInputs.FloatWriteClears` | tb/riscv-isa-sim/riscv/decode.h:170-172 | an input: mstatus 0x6008 becomes 0x6000 |
| `DebugModule.CustomRoundTrip` | tb/riscv-isa-sim/riscv/debug_module.cc:603-615 | what is written to a custom register is read back, and its neighbours read in step |
| `DebugModule.ControlWritten` | tb/riscv-isa-sim/riscv/debug_module.cc:675-713 | a write that activates the module or finds it active sets every field and the selected hart from the value, whatever is reset on the way |
| `DebugModule.ControlReadBack` | tb/riscv-isa-sim/riscv/debug_module.cc:344-359 | what such a write put into dmcontrol is read back, in every field that the module has |
| `DebugDevice.Device.constructor` | tb/riscv-isa-sim/riscv/debug_module.cc:22-59 | the program buffer is closed by ebreak, the word at whereto is a jump to the abstract code, the registers are as after a reset, and nothing is halted, busy or flagged |
| `DebugDevice.WheretoLands` | tb/riscv-isa-sim/riscv/debug_module.cc:26-49 | the jump leads exactly from whereto to the abstract code for every size of the program buffer |
| `DebugDevice.Device.HartHalted` | tb/riscv-isa-sim/riscv/debug_module.cc:180-191 | the new state after a store to HALTED: busy falls only for the selected hart with GO down |
| `DebugDevice.Device.HartGoing` | tb/riscv-isa-sim/riscv/debug_module.cc:193-196 | a store to GOING clears the selected hart's GO flag and nothing else |
| `DebugDevice.Device.HartResuming` | tb/riscv-isa-sim/riscv/debug_module.cc:198-204 | the new state after a store to RESUMING |
| `DebugDevice.Device.HartException` | tb/riscv-isa-sim/riscv/debug_module.cc:206-211 | a store to EXCEPTION sets the error unless one is pending |
| `DebugDevice.Device.HartStore` | tb/riscv-isa-sim/riscv/debug_module.cc:169-178 | a store by executing code changes exactly the bytes stored to |
| `DebugDevice.Device.ServeCommand` | tb/riscv-isa-sim/riscv/debug_module.cc:500-633 | the in-place compilation leaves the state that the specification gives, word for word |
| `DebugDevice.Device.PerformAbstractCommand` | tb/riscv-isa-sim/riscv/debug_module.cc:491-638 | all refusals, in their order, and the accepted case |
| `DebugDevice.Device.ResetModule` | tb/riscv-isa-sim/riscv/debug_module.cc:61-97 | the whole new state after a reset |
| `DebugDevice.Device.ControlWrite` | tb/riscv-isa-sim/riscv/debug_module.cc:675-713 | the whole new state after a write to dmcontrol: activation, fields, selection, resumption and resets, in their order |
| `DebugDevice.Device.Write` | tb/riscv-isa-sim/riscv/debug_module.cc:640-784 | the whole new state and the result of any write of the debugger's |
| `DebugDevice.Device.Read` | tb/riscv-isa-sim/riscv/debug_module.cc:312-489 | the whole new state and the value of any read of the debugger's, or that the register does not exist |
| `Handshake.WriteSized` | tb/riscv-isa-sim/riscv/debug_module.cc:640-784 | a debugger's write, other than to dmcontrol, either launches a command, from idle and for a halted hart, or leaves GO and busy alone; while busy it changes no data, program buffer or abstract code |
| `Handshake.ReadSized` | tb/riscv-isa-sim/riscv/debug_module.cc:312-489 | likewise a read |
| `Handshake.ControlKeeps` | tb/riscv-isa-sim/riscv/debug_module.cc:675-713 | a write to dmcontrol keeps the invariant if and only if, when a command is outstanding, the module is not reset and the hart stays selected, or the executing hart and the module are both reset |
| `Handshake.InvStep` | tb/riscv-isa-sim/riscv/debug_module.cc:169-211 | every access, every such write to dmcontrol and every step of every hart in the ROM loop keeps the handshake's invariant |
| `Handshake.BusyAndExactlyOnce` | tb/riscv-isa-sim/riscv/debug_module.cc:491-498 | along every run: busy means exactly that GO is up or the hart is between its stores to GOING and HALTED; commands are executed as accepted, in order, once each, but for one pending; what executes is the code of the last one |
| `Handshake.BusyProtects` | tb/riscv-isa-sim/riscv/debug_module.cc:631-671 | along every run: no access changes data, program buffer or abstract code, or is accepted, while a command is outstanding |
| `Handshake.GoIsSeen` | tb/riscv-isa-sim/debug_rom/debug_rom.S:31-41 | with GO up each step of the ROM loop brings the hart nearer to the abstract code, unless it resumes first |
| `Handshake.ExecutesWithinFour` | tb/riscv-isa-sim/debug_rom/debug_rom.S:31-52 | along every run, once GO is up for a hart in the loop that is not asked to resume, it executes the abstract code within four steps of its own, whatever the others and the debugger do besides writing dmcontrol |
| `Handshake.ResetKeepsOnlyIdle` | tb/riscv-isa-sim/riscv/debug_module.cc:61-97 | whichever hart is selected, a reset keeps the handshake if and only if no command is outstanding |
| `HandshakeInputs.DisorderlyInput` | tb/riscv-isa-sim/riscv/debug_module.cc:61-97 | a run of four events that ends with a command outstanding; selecting another hart, or a reset, then breaks the handshake |
| `Handshake.DeactivationRepeats` | tb/riscv-isa-sim/riscv/debug_module.cc:675-713 | a write that deactivates the module leaves the requests in dmcontrol, and resets exactly the harts, and asks to resume the hart, that they still name |
| `Jtag.ValidStep` | tb/riscv-isa-sim/riscv/jtag_dtm.cc:54-125 | every setting of the pins keeps the data register within its length and the output pin equal to its low bit while shifting |
| `Jtag.ScanStep` | tb/riscv-isa-sim/riscv/jtag_dtm.cc:74-116 | a shifting edge moves one bit out and one in; anything else between capture and update leaves the register |
| `Jtag.ScanBalance` | tb/riscv-isa-sim/riscv/jtag_dtm.cc:74-116 | over every pin trace, with any pauses: what is left, weighted, plus what came out equals what was captured plus what went in, weighted |
| `Jtag.FullScan` | tb/riscv-isa-sim/riscv/jtag_dtm.cc:74-148 | a scan of exactly the register's length puts out the bits of the captured register, in order, and leaves a register whose bits are those that went in |
| `Jtag.OutputBit` | tb/riscv-isa-sim/riscv/jtag_dtm.cc:97-99 | before the k-th shift the output pin shows bit k of the captured register |
| `Jtag.DmiScan` | tb/riscv-isa-sim/riscv/jtag_dtm.cc:150-184 | a DBUS scan calls the debug module once with exactly the fields scanned in, and leaves its answer for the next capture |
| `Jtag.FullIrScan` | tb/riscv-isa-sim/riscv/jtag_dtm.cc:74-116 | a scan of exactly five bits into the instruction register, with any pauses, leaves the bits that went in and nothing else changed |
| `Jtag.Request` | tb/riscv-isa-sim/riscv/jtag_dtm.cc:54-184 | from any instruction: a scan that selects the debug module, and a scan of a request, put out the answer to the request before, make exactly one call with the fields of this one, and leave its answer |
| `Jtag.Port.Set` | tb/riscv-isa-sim/riscv/jtag_dtm.cc:54-125 | the object's fields after set_pins are those of the specification; the edge acts on the pins as set before |
| `Jtag.Port.Update` | tb/riscv-isa-sim/riscv/jtag_dtm.cc:150-184 | the answer assembled field by field is the specification's |
| `MatMul.DotUnrolled` | sw/app/mm/mm.c:18-28 | four partial sums add up to the inner product, for every length |
| `MatMul.MmNaive` | sw/app/mm/mm.c:11-31 | the triple loop adds the product to the block and changes nothing else |
| `MatMul.KLoop` | sw/app/mm/rb.h:3-210 | the 4 by 5 kernel, unrolled by 6 with its remainder loop, adds the product to its block and changes nothing else |
| `MatMul.JoinParts` | sw/app/mm/mm.c:33-44 | products added to two parts of a block make the product added to the block |
| `MatMul.JoinInner` | sw/app/mm/mm.c:100-114 | products over consecutive ranges of the inner dimension add up |
| `MatMul.MmRb` | sw/app/mm/mm.c:33-44 | register blocking, with both kinds of remainder, adds the product |
| `MatMul.Repack` | sw/app/mm/mm.c:46-72 | a block is copied, eight at a time and then the rest, and nothing else changes |
| `MatMul.Pack` | sw/app/mm/mm.c:84-94 | every tile of the packed array holds its part of the matrix |
| `MatMul.DotPacked` | sw/app/mm/mm.c:102-105 | inner products over packed tiles are those over the matrices |
| `MatMul.FinishTile` | sw/app/mm/mm.c:98-114 | a packed result tile ends up with the whole inner dimension added |
| `MatMul.ComputeTiles` | sw/app/mm/mm.c:96-125 | the tiles and the columns beyond the last full tile |
| `MatMul.UnpackAll` | sw/app/mm/mm.c:140-142 | unpacking turns the finished tiles into additions to the matrix |
| `MatMul.MmCb` | sw/app/mm/mm.c:74-143 | cache blocking, with all three kinds of remainder, adds the product |
| `MatMul.Mm` | sw/app/mm/mm.c:145-152 | on either path C becomes C + A * B and nothing outside the m by n block changes, for all sizes and leading dimensions |
| `MatMul.SameAsNaive` | sw/app/mm/mm.c:11-31 | the specification determines the result, so the blocked product is the triple loop's |
| `Towers.MovesShift` | sw/app/towers/towers_main.c:162-180 | the recursive strategy moves the top n discs in order and restores the other pegs |
| `Towers.MovesCount` | sw/app/towers/towers_main.c:162-180 | in exactly 2^n - 1 moves |
| `Towers.MovesLegal` | sw/app/towers/towers_main.c:162-180 | every one of them is legal when the discs moved are smaller than what lies on the other pegs |
| `Towers.OrderedThroughout` | sw/app/towers/towers_main.c:162-180 | at no intermediate step does a larger disc lie on a smaller one |
| `Towers.PartitionMoved` | sw/app/towers/towers_main.c:75-115 | moving a node from list to list keeps the lists a disjoint, complete partition of the pool |
| `Towers.LinkedMoved` | sw/app/towers/towers_main.c:75-115 | and keeps each a null-terminated chain |
| `Towers.Towers.ListPush` | sw/app/towers/towers_main.c:75-93 | the disc is on top of the peg, the other pegs are as before, and the node came off the free list |
| `Towers.Towers.ListPop` | sw/app/towers/towers_main.c:95-115 | the top disc is returned, the rest of the peg and the other pegs remain, and the node is free |
| `Towers.Towers.Init` | sw/app/towers/towers_main.c:135-149 | the first peg holds discs 1 to n in order, the others none |
| `Towers.Towers.Clear` | sw/app/towers/towers_main.c:151-160 | the same from any state, every node having been freed |
| `Towers.Towers.SolveH` | sw/app/towers/towers_main.c:162-180 | the lists go through exactly the moves of the strategy, which are counted |
| `Towers.Towers.Verify` | sw/app/towers/towers_main.c:187-216 | 0 if and only if all discs are on the last peg in order after 2^n - 1 moves |
| `Towers.Play` | sw/app/towers/towers_main.c:221-255 | the whole program, rehearsed or not, plays a legal game of 2^n - 1 moves and returns 0, for every n >= 1 |
| `CacheSim.WordFacts` | tb/riscv-isa-sim/riscv/cachesim.cc:105-109 | the flag bits of a tag word never meet the line number |
| `CacheSim.CheckTagFinds` | tb/riscv-isa-sim/riscv/cachesim.cc:103-113 | a line is found exactly when it is held, in either organisation |
| `CacheSim.VictimizeSet` | tb/riscv-isa-sim/riscv/cachesim.cc:115-122 | the line replaces one word of its own set; held and dirty lines change accordingly and no line is held twice |
| `CacheSim.VictimizeFull` | tb/riscv-isa-sim/riscv/cachesim.cc:173-185 | likewise in the ordered map, with eviction only when it is full |
| `CacheSim.AccessEffect` | tb/riscv-isa-sim/riscv/cachesim.cc:124-160 | the cache stays in order, each line held at most once and only in the set it indexes to; and what the access does to the lines held, the lines dirty, the counters and the next level, hit or miss, in either organisation |
| `CacheSim.DirtyIffStored` | tb/riscv-isa-sim/riscv/cachesim.cc:124-160 | over every run a line is held dirty if and only if it was stored to since it was last written back |
| `CacheSim.Accounting` | tb/riscv-isa-sim/riscv/cachesim.cc:124-160 | over every run: next-level reads equal misses, next-level writes equal writebacks, and lines made dirty equal writebacks plus lines still dirty |
| `CacheSim.WritebackAddress` | tb/riscv-isa-sim/riscv/cachesim.cc:147-153 | a writeback carries the base address of a line that was dirty and is no longer held |
| `CacheSim.NextLevelCounts` | tb/riscv-isa-sim/riscv/cachesim.cc:149-156 | a next level fed by this cache alone counts one read per miss and one write per writeback |
| `CacheSim.Level.constructor` | tb/riscv-isa-sim/riscv/cachesim.cc:31-61 | an empty cache of the organisation that the configuration selects |
| `CacheSim.Level.FindTag` | tb/riscv-isa-sim/riscv/cachesim.cc:103-113 | the loop over the ways finds what the specification finds |
| `CacheSim.Level.Access` | tb/riscv-isa-sim/riscv/cachesim.cc:124-160 | the access updates this cache and, through the miss handlers, the whole chain below as specified |

## Left out

- Integer widths: the benchmark kernels use unbounded integers for sizes, counters and exact sums; 32- and 64-bit wrap-around is modelled where it matters (protection, translation, debug module, high multiply).
- Floating point: the matrix and vector kernels add and multiply exact integers; rounding and reassociation are not modelled.
- Mmu.Walk: does not model Sv64, whose check of the upper address bits shifts by more than the word width and which no write to satp selects (`tb/riscv-isa-sim/riscv/processor.cc:465-472`), nor the variant that sets accessed and dirty bits; the 32- and 64-bit machines have max_xlen equal to xlen.
- TlbRuns.Run: each memory is contiguous on the host page by page, as memories are made of whole pages; what a matching trigger does, a device that refuses an access, the bytes at the host address, the instruction cache and misaligned accesses are not modelled.
- PmpTest.TestPredictsSimulator: takes the entries as programmed; the writes to pmpcfg and pmpaddr are commented out in this simulator (`tb/riscv-isa-sim/riscv/processor.cc:341-358`), so that its entries keep their reset values.
- QuickSort.Sort: `selection_sort` is never called and is not modelled.
- BarrierFair.EveryoneReleased: every thread keeps coming back to the barrier; a thread that stays away keeps the others waiting, as it should. Memory is sequentially consistent.
- Vvadd.EndToEnd: two loads whose first operand is read-only are one step; statistics output is not modelled.
- AbstractCommand.CompiledMeaning: CSRs are separate registers without aliases, each taking a value given by a function of what is written; privilege and the pipeline's serialisation are not modelled; accesses outside the data words are not modelled, as the emitted code makes none.
- Handshake.InvStep: takes writes to `dmcontrol` as orderly in the sense of `Handshake.ControlKeeps`; a reset hart leaves the debug ROM at once; code run from the program buffer may store to the data area and the program buffer but not to the ROM's own mailbox addresses.
- DebugDevice.Device.Write: the system-bus registers are not modelled and what they answer is a parameter, as is each new authentication challenge; what a reset does inside a processor, beyond the notice to the debug module, is not modelled; the program buffer has at most 25 words, so that the debug memory's regions do not overlap.
- QuickSort.SortOrOverflow: stops where the source writes beyond its stack; what such a write destroys is not modelled.
- Jtag.Request: the debug module's answer is a parameter; the registers are taken to be in range, as they are once an instruction has been reset and a supported one captured.
- Towers.Play: pointers are numbers of nodes in the pool; zero discs, on which the source recurses for ever, are excluded.
- CacheSim.Level.Access: set index and line offset are written as remainder and quotient instead of mask and shift; counters do not wrap; logging and statistics output are not modelled.
- MatMul.Mm: the operand arrays are distinct from the result array.
- Dhrystone, median, spmv, single-threaded vvadd, bus lookup, CLINT, disassembler, device tree, ELF loading, sockets and terminal code: input and output or easier members.
