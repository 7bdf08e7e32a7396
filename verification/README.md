# Xeros in Dafny

A model of the parts of the Xeros teaching kernel, of its boot decompressor and of its C library
whose correctness is not plain from reading one function, with proofs. Each method follows the
branches, constants and error codes of the C function it models; what the function is for is stated
by a definition that does not mention it, and the method's contract or a lemma connects the two.

| part | files | independent definition |
|---|---|---|
| inflate | `HuftTable`, `TableBuilder`, `HuftCode`, `HuftLimit`, `HuftBuild`, `Inflate` | `Canonical` and `Deflate`: the canonical codes of section 3.2.2 of RFC 1951 and a decoder that takes one bit at a time; `Format` holds this decoder against an encoder, for every choice that an encoder has |
| window and CRC | `Window`, `Crc` | the byte-by-byte copy `Copied`; the bitwise shift register of section 8 of RFC 1952 |
| quicksort | `QSort` | sortedness under a total preorder, permutation of the segment |
| dispatcher, messages, sleep list | `Links`, `KernelRep`, `KernelSleep`, `Kernel` | `KernelSpec`: a state machine on values, whose invariant and whole runs are in `KernelInv` and `KernelRuns`; `KernelArms` says in terms of the old state who is ready, in which order, and what each request answers |
| memory manager | `HeapRep`, `Allocator` | `HeapSpec`: the row of blocks that tiles memory around the hole |
| signals | `Signals` | a stack of frames and a set of waiting signals |
| decimal numbers | `Decimal` | digit strings and their values |

The constants of the source appear as numerals in the statements of these laws, so that a wrong
constant breaks one of them even if code and definition share it.

`Bits` holds shifts, masks and bit reversal on unbounded numbers; everything in it is defined by
recursion on the shift count, so that no proof needs multiplication of variables.

## How the model reads the code

* Decoder. The input is one byte sequence; where the code would ask `fill_inbuf` for more than there
  is, the outcome is `OutOfInput`. `error()` (incomplete trees) is `Halted`; using a NULL table or a
  table entry that was never written is `Wild`. `Follows` says what each outcome means for the
  reference decoder: `Return(0)` only for a stream it accepts, the code's other answers only for one
  it rejects or that ends too early. For a stream it accepts with 16 bits to spare (the gzip trailer
  has 64) the answer is `Return(0)`. The bit buffer holds at most 23 bits and its bits do not
  overlap, so `|` and `<<` on it are addition and `Shl`. The initial contents of the window precede
  the output in the reference decoder, so that no hypothesis on distances is needed.
* Tables. `huft_build` is proved for every list of lengths, not only for the trees of DEFLATE: its
  tables decode like the canonical decoder if and only if the code has no prefix that makes a deeper
  table one bit too wide (`DeepWide`). The loop that looks for a table size starts above its limit
  when `k - w >= z`; later versions of gzip guard it. `HuftLimit.WideExample` is a list of lengths
  (1, 2, 3, 3 with one lookup bit) for which the tables are wrong, and `HuftLimit.CompleteNotWide`
  shows that no tree that DEFLATE allows is affected.
* Processes. The process control blocks are one map per field of `struct pcb`, from pid to value, and
  a pointer to a block is its pid; sharing of the `next` field between the ready queue and every
  sender queue is therefore kept. What `create` chooses (pid, slot) and the length that the memory
  copy reports are part of the request. The idle process (pid 0) makes no requests. `Kill` is a signal
  whose handler is to run in a process that sleeps: it takes the process from the list and makes it
  ready.
* Sleep list. The state machine has the list that is meant: its run theorems hold for every sequence
  of creations, messages, sleeps, signals, stops and ticks. `wake` and the removal of the first
  sleeper do not clear the new first sleeper's `sleepPrev`, and the class models them so unless its
  constant `clears` is set. `Sys.stale` is what that pointer leads to. `Kernel.Kernel.Serve` shows that a
  turn of the dispatcher always keeps the ready queue and all sender queues in step with the state
  machine, and the sleep list if and only if nothing is inserted in front of a first sleeper that
  points back (`SleepOk`) and no such sleeper is removed (`RemoveOk`); with `clears` set that is every
  turn (`KernelRuns.ClearedServes`). For the other turns `Serve` states the links that are left. An
  insertion puts the new sleeper behind the process pointed back to. If that one is awake, the new
  sleeper is on no list and all others wake too early by its whole time
  (`KernelSleep.SleeperUnreachable`); if it sleeps again, the list becomes a circle with the new sleeper
  in it (`KernelSleep.ListTied`). `KernelRuns.SleepCanBeLost` and `KernelRuns.ListCanBeTied` are runs of
  four and six requests to states in which a sleep of 5 ms does the one and the other. A removed
  first sleeper that pointed back stays at the head, and nobody behind it is reached any more
  (`KernelSleep.StillFirst`). The documentation of `syssleep` promises the remaining milliseconds to a
  process that is woken early; the code gives it its own delta, which is the same exactly for the
  first sleeper (`KernelRuns.RemovedEax`).
* Memory. `tick`, `getMemHeader` and `kfree` read or write through NULL in places; such a write hits no
  header, and a block with no free header in front is not merged with one. `kfree` takes SYSERR from
  `insertMemHeaderLink` for success, so that it answers OK for a free block and changes nothing. A
  header that was merged into the block in front keeps its sanity check: giving a block back twice
  is harmless if and only if the first `kfree` did not merge it to the left, and otherwise the free list
  gets a header inside a free block, so that it belongs to no row of blocks
  (`Allocator.Allocator.FreeTwice`; `HeapSpec.LeftMergePossible` is a run that gets there). A block is
  split only if the remainder has room for its header, and only then does memory stay tiled
  (`HeapSpec.SplitNeedsRoom`).
* Printing. `%-0Nd` writes its zeros behind the digits. `Decimal.RoundTrip` shows that `atoi` reads
  back what `%d` printed in every other case and, when zeros were written there, only for 0.

## Model

| member | source | states |
|---|---|---|
| Canonical.HasCodeRange | boot/zBoot/inflate.c:178-192 | the codes of length k are exactly the numbers from the first code of that length on, one per symbol |
| Canonical.HasCodeUnique | boot/zBoot/inflate.c:206-212 | no two symbols share a code |
| Canonical.EndIsKraftSum | boot/zBoot/inflate.c:168-174 | the codes used up to length g, in units of 2^-g, are the Kraft sum of the lengths |
| Canonical.CodeIsSum | boot/zBoot/inflate.c:206-286 | a code is the sum of what all shorter codes, and the codes of its length with lower symbols, take up in units of its length |
| Canonical.CodesInOrder | boot/zBoot/inflate.c:206-286 | codes of one length increase with their symbols, and a shorter code comes before every longer one |
| Canonical.StandardExample | boot/zBoot/inflate.c:206-286 | lengths 3, 3, 3, 3, 3, 2, 4, 4 have the codes of the example in section 3.2.2 of RFC 1951 |
| HuftCode.RoundTrip | boot/zBoot/inflate.c:206-212 | the code of any symbol, followed by any bits, decodes to that symbol and uses exactly its bits |
| HuftCode.CompleteAssigns | boot/zBoot/inflate.c:301-302 | for a complete set without zero lengths every bit pattern that is long enough has a symbol |
| HuftTable.LookupCorrect | boot/zBoot/inflate.c:353-362 | looking a stream up through the linked tables finds the entry of the canonical code that starts the stream, and drops its bits |
| HuftCode.TablesDecode | boot/zBoot/inflate.c:353-362 | tables filled for all positions, none too wide, decode every stream from every bit position like the bit-by-bit decoder, errors included |
| HuftLimit.NotWide | boot/zBoot/inflate.c:222-237 | no deeper table is too wide when g <= 2l or there are fewer than 2^l codes |
| HuftLimit.CompleteNotWide | boot/zBoot/inflate.c:222-237 | the same condition for the lengths that a caller passes |
| HuftLimit.WideFails | boot/zBoot/inflate.c:222-237 | if some deeper table is too wide, some stream is not decoded as its code says |
| HuftLimit.WideExample | boot/zBoot/inflate.c:222-237 | a complete set of four codes with lookup bits 1 for which a deeper table is too wide |
| HuftBuild.BackwardsIncrement | boot/zBoot/inflate.c:283-286 | if i is the k-bit reversal of a code, the new i is the reversal of the next code |
| HuftBuild.SmallerTable | boot/zBoot/inflate.c:227-235 | the loop ends at the smallest size whose codes use up the prefix, or at the limit, or one above the first size tried |
| HuftBuild.TableBits | boot/zBoot/inflate.c:222-237 | the size of a new table: large enough for every code below its prefix, and too large exactly when the search overshoots |
| HuftBuild.FillSlots | boot/zBoot/inflate.c:278-281 | every slot whose low bits are the reversed code gets the entry and no other slot changes |
| HuftBuild.CountLengths | boot/zBoot/inflate.c:135-140 | c[k] is the number of codes of length k |
| HuftBuild.FindBounds | boot/zBoot/inflate.c:150-164 | the shortest and the longest length in use |
| HuftBuild.FillOut | boot/zBoot/inflate.c:168-174 | y is negative exactly for more codes than bits, and otherwise the number of dummy codes that complete the set |
| HuftBuild.Offsets | boot/zBoot/inflate.c:178-183 | x[k] is the number of symbols with shorter codes |
| HuftBuild.SortValues | boot/zBoot/inflate.c:187-192 | v is the symbols by length and then by number, and nothing behind them is written |
| HuftBuild.Builder.NextEntry | boot/zBoot/inflate.c:262-275 | the entry is that of the next symbol in code order, or marks an invalid code when there is none |
| HuftBuild.Builder.OpenTable | boot/zBoot/inflate.c:216-259 | a new table is linked into the one above without disturbing any entry that an earlier code needs |
| HuftBuild.Builder.StoreCode | boot/zBoot/inflate.c:262-293 | after a code all positions up to the next code are right, i is the reversal of that code and p stands at its symbol |
| HuftBuild.Builder.CodesOfLength | boot/zBoot/inflate.c:210-296 | all codes of one length are stored |
| HuftBuild.Builder.Run | boot/zBoot/inflate.c:206-297 | every position of the longest code length is right |
| HuftBuild.MakeTables | boot/zBoot/inflate.c:196-297 | the tables hold every position, start with l lookup bits, and are no wider than they should be when no prefix makes them so |
| HuftBuild.HuftBuild | boot/zBoot/inflate.c:99-303 | 2 exactly for a Kraft sum above 1, 1 exactly for one below 1 with g other than 1, and tables that decode every stream if and only if no deeper table is too wide |
| Crc.RegisterAppend | boot/zBoot/misc.c:261-271 | feeding the register in pieces is feeding it the concatenation |
| Crc.TableStep | boot/zBoot/misc.c:211-213 | eight single-bit steps are one table lookup and a shift |
| Crc.PatternIsPoly | boot/zBoot/misc.c:290-296 | the exponents give the reflected CRC-32 polynomial EDB88320 |
| Crc.CrcResidue | boot/zBoot/misc.c:199-217 | a register that starts with ffffffff and takes any message and then the CRC of the message, low byte first, ends with DEBB20E3 |
| Crc.CrcOfLetter | boot/zBoot/misc.c:199-217 | the CRC of the one byte 61 is E8B7BE43 |
| Crc.MakePattern | boot/zBoot/misc.c:293-296 | the loop sets the bit of every exponent |
| Crc.TableEntry | boot/zBoot/misc.c:300-310 | the inner loop leaves eight steps of the register applied to the byte |
| Crc.MakeCrc | boot/zBoot/misc.c:280-311 | the whole table |
| Crc.ByteStep | boot/zBoot/misc.c:212-212 | one table lookup advances the register by one byte |
| Crc.UpdCrc | boot/zBoot/misc.c:199-217 | the table-driven loop leaves the bitwise register after all bytes |
| Window.CopiedAt | boot/zBoot/inflate.c:395-418 | every byte of a match is the byte dist places before it, also where the copy overlaps itself |
| Window.CopiedAdd | boot/zBoot/inflate.c:395-418 | copying in chunks is copying at once |
| Window.MemCpy | boot/zBoot/misc.c:172-179 | the forward loop copies the old bytes when the areas do not overlap to the right |
| Window.Output.Flush | boot/zBoot/misc.c:261-271 | the window goes to the output, the CRC register covers all output, and a full window is still the last 32 KB of the history |
| Window.Output.Put | boot/zBoot/inflate.c:364-373 | a literal extends the history, flushing when the window is full |
| Window.Output.CopySlowly | boot/zBoot/inflate.c:408-412 | the byte loop appends e bytes of the match |
| Window.Output.CopyFast | boot/zBoot/inflate.c:402-407 | the memcpy branch appends the same |
| Window.Output.CopyChunk | boot/zBoot/inflate.c:399-412 | either branch, with the unsigned comparison that selects it |
| Window.Output.CopyMatch | boot/zBoot/inflate.c:395-418 | the chunked loop with wrap-around and flush ends and appends exactly the match, for every length and every distance up to 32768 |
| Inflate.LengthsAreDeflate | boot/zBoot/inflate.c:51-57 | the table of lengths agrees with the formula of section 3.2.5 of RFC 1951 |
| Inflate.DistsAreDeflate | boot/zBoot/inflate.c:58-65 | the table of distances agrees with the formula of section 3.2.5 of RFC 1951 |
| Inflate.BorderIsPermutation | boot/zBoot/inflate.c:49-50 | border reaches each of the 19 code length codes once; `Format.CodeLensAt` says at which place |
| Format.CodeLensAt | boot/zBoot/inflate.c:593-601 | of nb code length code lengths from a position on, symbol s gets the three bits at place s-16 for s >= 16, 3 for 0, 2s-12 for 8 to 15 and 19-2s for 1 to 7, or 0 if that place is not below nb |
| Format.FixedRanges | boot/zBoot/inflate.c:505-512 | 8 bits for 0 to 143, 9 for 144 to 255, 7 for 256 to 279, 8 for 280 to 287 |
| Format.FixedCode | boot/zBoot/inflate.c:505-515 | the codes of the four ranges start at 30, 190, 0 and C0 (hexadecimal) and are consecutive |
| Format.NoFixedDistance | boot/zBoot/inflate.c:518-532 | the two distance codes of five bits that no symbol has are refused |
| Format.LengthNumbers | boot/zBoot/inflate.c:51-57 | shortest length and extra bits of each of the 29 length codes |
| Format.DistNumbers | boot/zBoot/inflate.c:58-65 | first distance and extra bits of each of the 30 distance codes |
| Format.CodesRead | boot/zBoot/inflate.c:328-430 | any literals and matches, written with any usable codes and an end-of-block code, decode to what they say |
| Format.StoredBlock | boot/zBoot/inflate.c:434-486 | any data up to 65535 bytes behind length and complement decode to themselves, from the next byte boundary on |
| Format.FixedBlock | boot/zBoot/inflate.c:490-540 | any literals and matches written with the fixed codes decode to what they say |
| Format.ItemsRead | boot/zBoot/inflate.c:616-665 | any sequence of code lengths, repeats of 3 to 6, and runs of 3 to 10 and 11 to 138 zeros gives the lengths it stands for |
| Format.TreesRead | boot/zBoot/inflate.c:574-668 | the counts, the code length code and the lengths of both codes, written in this way, are read back |
| Format.DynamicBlock | boot/zBoot/inflate.c:544-718 | any literals and matches, written with any codes that the block describes, decode to what they say |
| Format.StreamRead | boot/zBoot/inflate.c:769-791 | blocks decode one behind the other up to the one that is marked as the last |
| Format.Refused | boot/zBoot/inflate.c:753-764 | 2 for block type 3, and 1 for a literal/length symbol above 285 or a distance symbol above 29 |
| Format.StoredRefused | boot/zBoot/inflate.c:434-486 | 1 for a length whose complement is not the one that follows |
| Format.WhatIsBad | boot/zBoot/inflate.c:168-174 | a set of lengths is bad with 2 if its Kraft sum is above 1, and with 1 if it is below 1 and the longest is not 1 |
| Format.TreesRefused | boot/zBoot/inflate.c:605-708 | the first bad one of the three sets of a dynamic block decides the error |
| Inflate.BuildTables | boot/zBoot/inflate.c:99-303 | huft_build as its callers use it: its answer is what section 3.2.7 of RFC 1951 calls a bad set, and the tables decode |
| Inflate.Inflater.NeedBits | boot/zBoot/inflate.c:84-84 | the buffer is the next k stream bits, k at most 23, and fails only when the input has ended |
| Inflate.Inflater.DumpBits | boot/zBoot/inflate.c:85-85 | the position advances by n |
| Inflate.Inflater.Decode | boot/zBoot/inflate.c:353-362 | the table walk decodes one symbol and uses the bits of its code |
| Inflate.Inflater.Pair | boot/zBoot/inflate.c:378-396 | length and distance with their extra bits |
| Inflate.Inflater.InflateCodes | boot/zBoot/inflate.c:328-430 | literals and matches up to end-of-block leave the output of the reference decoder |
| Inflate.Inflater.InflateStored | boot/zBoot/inflate.c:434-486 | stored blocks: byte boundary, length, complement, bytes |
| Inflate.Inflater.InflateFixed | boot/zBoot/inflate.c:490-540 | blocks with the fixed codes |
| Inflate.Inflater.BitLengths | boot/zBoot/inflate.c:593-601 | the code length code lengths in border order, zero where absent |
| Inflate.Inflater.CodeLengths | boot/zBoot/inflate.c:616-665 | the lengths with their repeat codes, or the error for a run past the end |
| Inflate.Inflater.ReadLengths | boot/zBoot/inflate.c:574-668 | the whole description of a dynamic block |
| Inflate.Inflater.InflateDynamic | boot/zBoot/inflate.c:544-718 | dynamic blocks, with the same errors as the reference decoder |
| Inflate.Inflater.InflateBlock | boot/zBoot/inflate.c:722-765 | one block of any type and the last-block flag |
| Inflate.Inflater.Inflate | boot/zBoot/inflate.c:769-810 | the output, its CRC, and inptr at the first byte behind the last bit used, for any mixture of blocks |
| Inflate.Decompress | boot/zBoot/misc.c:331-372 | the decompressor from table setup to result: output and CRC-32 are those of the reference decoder, for every input, and every other outcome says what is wrong with the input |
| QSort.Exchange | lib/libxc/qsort.c:88-101 | two elements change places |
| QSort.Exchange3 | lib/libxc/qsort.c:103-119 | three elements move round, also when two of the places are the same |
| QSort.SlideUp | lib/libxc/qsort.c:56-59 | the equal block moves up by one and keeps all three parts |
| QSort.SlideDown | lib/libxc/qsort.c:83-84 | the equal block moves down by one and keeps all three parts |
| QSort.SwapAround | lib/libxc/qsort.c:61-64 | a small and a great element change sides |
| QSort.Above | lib/libxc/qsort.c:49-69 | the part after the label loop: nothing unknown is left above the block, or an exchange was made and (lp-i)+(j-hp) fell |
| QSort.Partition | lib/libxc/qsort.c:32-85 | the segment is permuted into a smaller, an equal and a greater part |
| QSort.Qs1 | lib/libxc/qsort.c:19-86 | the segment is sorted and permuted, the rest untouched, and nested calls go no deeper than log2(n+1) |
| QSort.Sort | lib/libxc/qsort.c:14-17 | sorted under any total preorder, and a permutation |
| KernelInv.CoreWithdraw | c/msgQueues.c:58-77 | a sender that leaves a queue loses no rendezvous and leaves everybody else in place |
| KernelInv.CoreBlockSend | c/msgQueues.c:35-47 | blocking on a process that does not receive from the sender loses no rendezvous |
| KernelInv.CoreBlockRecv | c/msgQueues.c:126-129 | blocking for a sender that is not in the queue loses no rendezvous |
| KernelInv.LooseRendezvous | c/msg.c:140-161 | both partners of a message are ready afterwards, nobody else changes place, and no rendezvous is lost |
| KernelInv.StepKeeps | c/disp.c:45-159 | every request, whatever it is, keeps the invariant: each process in exactly one place, no lost rendezvous, sleepers in order |
| KernelInv.Reachable | c/disp.c:37-308 | the invariant holds in every state that requests can lead to from boot |
| KernelRuns.OnePlace | c/disp.c:322-374 | a live process other than idle is running, ready, asleep, receiving or in one sender queue, and exactly one of these |
| KernelRuns.NothingToReceive | c/msg.c:21-87 | nobody who blocks receiving has a message that it could get |
| KernelArms.YieldTurn | c/disp.c:64-67 | the first of the ready queue runs and the process that ran is the last of it |
| KernelArms.TimerTurn | c/disp.c:116-122 | those who sleep 10 ms or less longer are ready in list order, behind those who were, and the interrupted process behind them |
| KernelArms.CreateTurn | c/disp.c:50-61 | the new process is the last of the ready queue, the creator runs on with its pid |
| KernelArms.NoSleepTurn | c/sleep.c:89-101 | a sleep of 0 ms only gives up the turn, with 0 in eax |
| KernelArms.SleepTurn | c/sleep.c:34-77 | a longer one puts the process behind those who wake no later and in front of all others |
| KernelArms.KillTurn | c/signal.c:97-99 | the sleeper is the last of the ready queue and off the list, the caller runs on with 0 |
| KernelArms.SendRefused | c/msg.c:21-35 | -2 for a message to oneself, then -3 for no buffer, then -1 for no process, and the turn is given up |
| KernelArms.RecvRefused | c/msg.c:60-74 | the same for the receiver, with 0 for anybody |
| KernelArms.SendBlocks | c/msg.c:36-46 | a sender that is not waited for is the last of the receiver's queue, and nobody else's |
| KernelArms.RecvBlocks | c/msg.c:75-87 | a receiver for whom nothing is in its queue waits for the sender it named |
| KernelArms.SendMeets | c/msg.c:140-161 | sender and receiver get the length and are ready, the sender first |
| KernelArms.RecvMeets | c/msg.c:140-161 | the i-th sender, the one asked for or the first for 0, leaves the queue, with the same order and answers |
| KernelArms.StopOrder | c/msgQueues.c:169-247 | when a process stops, those who were ready go first, then its senders in queue order, then its receivers in table order |
| KernelArms.StopLeaves | c/disp.c:449-481 | the process leaves the table, the others keep their order in it, and nothing changes for a process that is not blocked on it |
| KernelRuns.AfterStop | c/disp.c:70-73 | after a process stops nobody sends to it or receives from it; those who did go on with -1 |
| KernelRuns.OthersSleepOn | c/disp.c:45-159 | no request of any process changes who sleeps or for how long, but for a signal to the sleeper itself |
| KernelRuns.TickOne | c/sleep.c:139-158 | a tick takes 10 ms from every sleeper and wakes, with 0 in eax, exactly those with nothing left |
| KernelRuns.SleepsThrough | c/sleep.c:139-158 | in any run of sleeps, ticks, removals of others and all else, a sleeper that gets no signal sleeps on as long as 10 ms per tick do not reach its time |
| KernelRuns.WokenByTick | c/sleep.c:139-158 | and is woken by the ceil(t/10)-th tick with 0 in eax |
| KernelRuns.WakeOrder | c/sleep.c:147-156 | those who wake at the same tick become ready in list order |
| KernelInv.SlotIs | c/sleep.c:44-54 | a new sleeper goes behind exactly those who wake no later, so ties keep their order |
| KernelRuns.Killed | c/signal.c:97-99 | a signal makes its sleeper the last of the ready queue with its delta in eax; everybody else keeps place and time |
| KernelRuns.RemovalDisturbsNobody | c/sleep.c:169-189 | removing one sleeper changes no other's time |
| KernelRuns.RemovedEax | c/sleep.c:193-193 | what a removed sleeper finds in eax is its remaining time exactly if it was first |
| KernelRuns.SleepCanBeLost | c/sleep.c:57-70 | four requests from boot after which a sleep of 5 ms meets a first sleeper that points back to a process that is awake |
| KernelRuns.ListCanBeTied | c/sleep.c:57-70 | six requests from boot after which it meets one that points back to a process that sleeps again |
| KernelRuns.ClearedServes | c/sleep.c:116-126 | if the new first sleeper's pointer is cleared, no request of any run meets one that points back |
| KernelSleep.SleeperUnreachable | c/sleep.c:57-76 | insertion before a first sleeper that points back to somebody awake: no way leads to the new sleeper, and all others are to wake earlier by its time |
| KernelSleep.ListTied | c/sleep.c:57-76 | the same for somebody asleep: the list runs from the first to that one, to the new sleeper and back to the first, for ever |
| KernelSleep.LostOrTied | c/sleep.c:57-76 | the new sleeper is on the list, and the list has no end, exactly if the process pointed back to sleeps |
| KernelSleep.StillFirst | c/sleep.c:173-192 | a removed first sleeper that points back is still where the list starts and leads nowhere |
| Kernel.Tail | c/disp.c:363-366 | the walk ends at the last block |
| Kernel.Before | c/msgQueues.c:68-75 | the walk ends in front of the block looked for, or at the end if it is not there |
| Kernel.InList | c/msgQueues.c:95-101 | the walk finds a block exactly if it is in the list |
| KernelRep.StateNumbers | c/disp.c:322-374 | the state field is 10 for ready, 11 for running, 12 for blocked on a message and 13 for asleep |
| Kernel.Kernel.Ready | c/disp.c:354-374 | the process is the last of the ready queue, all other lists unchanged; idle is not queued |
| Kernel.Kernel.Next | c/disp.c:322-344 | the first of the ready queue runs, or idle |
| Kernel.Kernel.AddBlockedSender | c/msgQueues.c:35-47 | the sender is the last of the receiver's queue |
| Kernel.Kernel.RmBlockedSender | c/msgQueues.c:58-77 | the sender leaves the queue if it is there |
| Kernel.Kernel.IsProcSending | c/msgQueues.c:89-103 | the sender is in the queue, or for 0 anybody is |
| Kernel.Kernel.RmBlockedRecver | c/msgQueues.c:139-142 | the process receives from nobody |
| Kernel.Kernel.AddBlockedRecver | c/msgQueues.c:126-129 | the process receives from the given sender |
| Kernel.Kernel.RunSend | c/msg.c:140-161 | both partners get the length and become ready, the sender first |
| Kernel.Kernel.Send | c/msg.c:21-46 | the error codes -2, -3 and -1 in this order, a rendezvous, or a blocked sender |
| Kernel.Kernel.Recv | c/msg.c:60-87 | the same for the receiver, with 0 for the first sender |
| Kernel.Kernel.CleanUpSenders | c/msgQueues.c:169-197 | all blocked senders become ready in queue order with -1 |
| Kernel.Kernel.GetAllRecvers | c/pcb.c:222-237 | the pids that receive from the process, in slot order |
| Kernel.Kernel.CleanUpRecvers | c/msgQueues.c:208-247 | all of them become ready with -1 |
| Kernel.Kernel.Cleanup | c/disp.c:449-481 | both, and the process is gone from the table |
| Kernel.Kernel.FindSlot | c/sleep.c:41-54 | the walk stops at the place of the new sleeper with its time relative to the one before |
| Kernel.Kernel.AddToSleepList | c/sleep.c:34-77 | the sleeper is in its place with all deltas right, except exactly where the first sleeper still points back, and the links and times that are left there |
| Kernel.Kernel.Sleep | c/sleep.c:89-101 | ready at once for 0 ms, asleep otherwise, with the same exception |
| Kernel.Kernel.Wake | c/sleep.c:116-126 | the first sleeper becomes ready with 0 |
| Kernel.Kernel.Tick | c/sleep.c:139-158 | the deltas stand for 10 ms less each, and all sleepers that are due were woken in order |
| Kernel.Kernel.RemoveFromSleepList | c/sleep.c:169-196 | the sleeper leaves, all others keep their time, except exactly where it is first and still points back, and the links and times that are left there |
| Kernel.Kernel.TakeOut | c/sleep.c:173-192 | the links and times after either branch |
| Kernel.Kernel.Kill | c/signal.c:97-99 | the sleeper is taken from the list and ready, and the caller runs on with 0 |
| Kernel.Kernel.Create | c/create.c:51-106 | a new process with empty links is ready and the creator gets its pid |
| Kernel.Kernel.Serve | c/disp.c:45-159 | one turn of the dispatcher is one step of the state machine for every request, with all queues linked as it says, and the sleep list exactly if nothing is done in front of a first sleeper that points back; the links that are left otherwise |
| Kernel.Kernel.DispatchLoop | c/disp.c:37-308 | the loop over requests is a run of the state machine, as long as each can be linked, which with the pointer cleared is always |
| HeapSpec.CoveredOnce | c/memHeader.c:19-45 | every address outside the hole is in exactly one block, header included |
| HeapSpec.FirstFitLowest | c/memHeader.c:187-191 | no block in front of the one taken was free and large enough |
| HeapSpec.SplitArmIs | c/memHeader.c:193-205 | the splitting arm is taken exactly if the block has 16 bytes more than the least multiple of 16 that is not less than n, unless that uses up a block in front of the hole |
| HeapSpec.MallocNumbers | c/memHeader.c:187-219 | kmalloc takes the least multiple of 16 that is not less than n; the rest, less 16 for its header, is a free block behind, and all other blocks stay |
| HeapSpec.SplitNeedsRoom | c/memHeader.c:205-219 | memory stays tiled exactly if the rest of the block has room for its header |
| HeapSpec.RoomyBlock | c/memHeader.c:193-205 | 32 bytes more than asked for select the splitting arm |
| HeapSpec.SplitKeeps | c/memHeader.c:205-219 | tiling and full coalescing after an allocation |
| HeapSpec.FreeKeeps | c/mem.c:53-87 | tiling and full coalescing after a kfree |
| HeapSpec.RoundTrip | c/mem.c:53-87 | freeing the block that was split restores the row of blocks |
| HeapSpec.AddressRoundTrip | c/mem.c:30-87 | kfree of the address that kmalloc returned finds that block and restores the row |
| HeapSpec.AfterFree | c/memHeader.c:264-273 | after a kfree the address is no block any more exactly if it was merged to the left |
| HeapSpec.LeftMergePossible | c/mem.c:76-83 | three requests to a new heap after which a kfree merges to the left and leaves a header that is no block |
| HeapSpec.AlwaysTiled | c/mem.c:30-87 | tiling and coalescing over any alternation of kmalloc and kfree |
| HeapRep.RowDecidesLinks | c/memHeader.c:57-135 | the same row of blocks means the same list, links and sizes included |
| HeapRep.TouchesNext | c/memHeader.c:260-263 | the end of a free block is the next free header exactly if nothing lies between |
| HeapRep.MergeList | c/memHeader.c:264-273 | unlinking the merged header keeps the list linked both ways |
| HeapRep.FreeSorted | c/memHeader.c:57-93 | the free list is in address order |
| HeapRep.NoRow | c/mem.c:69-86 | a free list with a header that is no block belongs to no row of blocks that tiles memory |
| HeapRep.FitIs | c/memHeader.c:187-191 | the first list element that is large enough is the first fit of memory |
| Allocator.FreeAgain | c/mem.c:69-76 | a kfree of a block that is free changes nothing |
| Allocator.Allocator.FreeTwice | c/mem.c:53-87 | two calls for one block leave a heap exactly if the first did not merge to the left, and then the heap of one call |
| Allocator.Allocator.MallocFree | c/mem.c:30-87 | kfree of what kmalloc returned restores the free list exactly: root, and links and size of every block |
| Allocator.Allocator.constructor | c/memHeader.c:19-45 | two free blocks, one on each side of the hole |
| Allocator.Allocator.InsertMemHeaderLink | c/memHeader.c:57-93 | any header is linked at its address, or refused if it is in the list, and only its links and those of the list change |
| Allocator.Allocator.CheckAndMergeMemHeaders | c/memHeader.c:260-276 | merged exactly if the first ends where the second begins |
| Allocator.Allocator.GetMemHeader | c/memHeader.c:187-247 | the lowest block that is large enough is split, or SYSERR and nothing changed |
| Allocator.Allocator.KMalloc | c/mem.c:30-40 | the address behind the header, or EMPTY |
| Allocator.Allocator.KFree | c/mem.c:53-87 | the block is free and merged with both neighbours that touch it; a free block or a failed sanity check changes nothing; a header that is no block any more breaks the free list |
| Signals.HighestBit | c/signal.c:72-80 | the shifted mask tells whether a higher signal, this one or none is on the stack |
| Signals.RunKeeps | c/signal.c:67-84 | frames strictly increase and nothing waits above the top frame, in every reachable state |
| Signals.SignalAdds | c/signal.c:67-84 | an installed signal is handled once more, except if its handler is the one that runs or it waits already; one that is not installed changes nothing |
| Signals.StartsAtOnce | c/signal.c:70-84 | its handler starts at once exactly if no handler as high or higher was started |
| Signals.ReturnStarts | c/disp.c:233-244 | when a handler finishes, the highest waiting signal starts if it is above the handler that was interrupted, and otherwise that one goes on |
| Signals.HandlersInOrder | c/disp.c:220-246 | with no further signals, handlers finish in non-increasing order, each frame and each waiting signal once |
| Signals.SettlesIdle | c/disp.c:220-246 | and the process returns to no frames and an empty queue |
| Signals.BurstHandled | c/signal.c:70-84 | after any burst, exactly the installed signals of the burst are handled |
| Signals.Process.Signal | c/signal.c:64-84 | ignored, started, dropped or queued, with both masks the sets they stand for |
| Signals.Process.SigReturn | c/disp.c:220-246 | the finished frame goes and the highest waiting signal starts if it is above the frame left |
| Decimal.DigitsValue | lib/libxc/doprnt.c:250-265 | the digits of n have the value n |
| Decimal.Prtl10 | lib/libxc/doprnt.c:250-265 | the decimal digits of a non-negative word |
| Decimal.Long | lib/libxc/doprnt.c:136-148 | the digits of the word read as unsigned, through subtraction of thousands of millions with wrap-around |
| Decimal.FormatD | lib/libxc/doprnt.c:119-228 | sign, digits and fill in the order of the field |
| Decimal.PrintedLength | lib/libxc/doprnt.c:203-228 | for every width the field is as long as the number, or as the width if that is more and at most 80 |
| Decimal.FieldShape | lib/libxc/doprnt.c:217-228 | the number, sign included, is at the left or right end of its field and the rest is fill |
| Decimal.ZeroShape | lib/libxc/doprnt.c:217-228 | zeros stand between the sign and the digits |
| Decimal.WrapIs | lib/libxc/doprnt.c:136-148 | a word is in the 32-bit range and differs by a multiple of 2^32, signed or unsigned |
| Decimal.Atoi | lib/libxc/atoi.c:4-26 | blanks, a sign and digits give the word with that value |
| Decimal.ValueIs | lib/libxc/atoi.c:23-24 | one more digit makes those before it count ten times as much |
| Decimal.BlanksSkipped | lib/libxc/atoi.c:11-15 | any blanks and tabs in front change nothing |
| Decimal.AtoiReads | lib/libxc/atoi.c:11-25 | digits behind blanks and tabs and one sign or none give the word with their value, whatever follows |
| Decimal.AtoiNothing | lib/libxc/atoi.c:11-25 | anything else behind blanks and tabs is 0 |
| Decimal.RoundTrip | lib/libxc/atoi.c:4-26 | atoi returns what %d printed, for every word including the smallest, exactly unless zeros stand behind the digits of a number other than 0 |

## Left out

- boot/zBoot/inflate.c: the allocated tables are a sequence of blocks and a table pointer is a block number; the list through their dummy first entries and `huft_free` are not part of this model.
- boot/zBoot/inflate.c: the arrays u, x and c that the main loop of `huft_build` indexes are sequences held in fields, and the register copies of bb, bk and wp are the fields themselves.
- Inflate.BuildTables: states only the sets of lengths with g <= 2m or fewer than 2^m codes, which every caller meets; `HuftBuild.HuftBuild` states all sets.
- boot/zBoot/misc.c: gzip header parsing, buffer refills, boot malloc, console output.
- lib/libxc/qsort.c: an array of elements instead of bytes with an element size; the comparison is a function of two elements.
- c/pcb.c: hashing and probing of the table, slots that keep old values after a process has ended; the table is the sequence of live pids in slot order.
- c/disp.c: WAIT and its waiter list, KILL for processes that do not sleep, the device, keyboard and console arms, CPU time accounting.
- c/create.c: stack setup, resources, and the paths without memory or without a free slot.
- c/msg.c: the copy itself; the length that both sides get is part of the request. A message to pid 0 is taken as delivered to idle, as the branch says, without the reads through its empty argument pointer.
- c/sleep.c: times from 2^31 ms on, which the code stores in an int.
- Kernel.Kernel.DispatchLoop: ends before the first request that goes in front of a first sleeper that points back; `Serve` states that turn too, but what later turns make of the list it leaves is not modelled.
- Kernel.Kernel.GetAllRecvers: slots that keep values of processes that have ended are not scanned.
- Kernel.Kernel.Cleanup: states what happens to the running process, the only one that stops; its waiters are left out.
- Kernel.Kernel.Create: states the links, the queues and the place of the new process; its stack, resources, masks and file table are left out.
- c/memHeader.c: what the arms that do not split do to the heap, and sizes that are not multiples of 16.
- Allocator.Allocator.GetMemHeader: states nothing for the arms that do not split, where headers or bytes are lost.
- Allocator.Allocator.KMalloc: states nothing for the same arms.
- c/mem.c: memory of a user that happens to look like a header; the sanity checks that hold are those the kernel wrote.
- c/signal.c: the change of the process state and the words written to the stack; `handleRegister`, which rejects every handler; the installed mask is fixed.
- lib/libxc/doprnt.c: parsing of the format string and all conversions but %d and %u.
- Context switch, interrupts, devices, shell and tests: hardware and I/O.
