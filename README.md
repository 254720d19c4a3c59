# SIC/XE CPU core of SicTools, in Dafny

This project models the processor core of the SicTools SIC/XE simulator:
- the register file and its packed status word;
- the interrupt work areas and interrupt delivery;
- the fetch–decode–execute cycle with the privilege gate, the countdown timer and the four pending-interrupt slots;
- the register-level part of the virtual file-system device: the selected file, the 24-bit cursor, the cursor operations, the big-endian byte split and the free-file search.

Each stateful part is a class updated in place, as in the Java source:
- `Registers`: fields PC, A, X, L, B, S, T, F and SW.
- `Memory`: an `array` of 2^20 bytes.
- `Machine`: timer, interrupt slots, call stack and statistics.
- `FileSystem`: `targetFile` and `address`.

Each method is proved against a function over values. `Registers.Value()` returns a `RegState`. `Machine.State()` returns a `Cpu`. Memory is read as a `seq` of bytes. The properties the source promises are proved as lemmas about these functions.

Files:
- `sicxe.dfy`: 24-bit words, 20-bit addresses and Java `int` arithmetic. Covers wrap-around, truncating division and the bitwise operators.
- `memory.dfy`: big-endian byte and word access.
- `interrupt_classes.dfy`, `interrupts.dfy`: interrupt classes, work areas, saving the context and triggering.
- `registers.dfy`: the status word and the register file.
- `instructions.dfy`: opcode tables, addressing flags and operand fields.
- `machine_spec.dfy`: one machine cycle as functions, with its lemmas.
- `machine.dfy`: the `Machine` class.
- `fsystem.dfy`: the file-system device registers.

Several helpers are defined outside the modelled files (`SICXE`, `Memory`, `Flags`, `Opcode`, `Devices`, `Interrupt.ProgICODE`). This model defines them as follows; these definitions are assumptions:
- `intToWord` is `v mod 2^24`. `swordToInt` is the two's-complement reading of 24 bits. `intToAddr` is `v mod 2^20`.
- `Memory` holds 2^20 bytes. Every byte address is reduced modulo 2^20, and words are three bytes, big-endian. Breakpoint checks are ignored, so `getWord` and `getWordRaw` are the same.
- `Flags`:
  - n and i are bits 1 and 0 of the opcode byte; x, b, p and e are bits 7 to 4 of the next byte.
  - `isSic` is `!n && !i`, `isImmediate` is `!n && i` and `isIndirect` is `n && !i`.
  - `isSimple` is `n == i`: n and i both set, or standard SIC. The comment at src/sic/sim/vm/Machine.java:497-498 says that SIC, F3 and F4 all support indexing when the target-address calculation is simple. So an indexed SIC instruction adds signed X at decode and raises no addressing error.
  - The SIC address has 15 bits, the F3 displacement 12 bits (signed when PC-relative) and the F4 address 20 bits.
- `Opcode`: the standard SIC/XE opcode values.
  - F1 is FLOAT, FIX, NORM, SIO, HIO and TIO. F2 is ADDR to TIXR. F3/F4 is the remaining instructions.
  - The privileged set is SIO, HIO, TIO, LPS, STI, RD, WD, TD, STSW and SSK.
- `ProgICODE`: ILLEGAL_INSTRUCTION is 0 and PRIVILEGED_INSTRUCTION is 1.

Some behaviours of the code are easy to misread; the model follows the code in each:
- A TIMER request raised in a cycle is delivered by the same cycle's `triggerInterrupts`, unless an SVC or PROGRAM request is pending.
- `trigger` never writes the interrupt's own code into SW.
- `setSW` keeps only bit 3 of the ICODE field.
- `getSW` encodes a positive CC as bits 01 and a negative one as 10, but `setSW` reads 01 as negative and 10 as positive. So a status word saved by an interrupt and reloaded by LPS comes back with CC's sign negated (PackUnpack, LpsRestoresSaved).
- TIX increments X before loading its operand, so an indirect indexed operand sees the new X.
- RSUB on an empty call stack sets PC to L and then throws. The model ends that cycle as an aborted `Outcome`: no timer tick and no interrupt delivery.

## Model

| member | source | states |
|---|---|---|
| Sicxe.IntToWord | src/sic/sim/vm/Registers.java:66-68 | the stored word is congruent to the value modulo 2^24 and is the value itself when it already fits |
| Sicxe.SwordToInt | src/sic/sim/vm/Registers.java:62-64 | the signed reading lies in [-2^23, 2^23) and is congruent to the word modulo 2^24 |
| Sicxe.IntToAddr | src/sic/sim/vm/Registers.java:46-48 | the address is congruent to the value modulo 2^20 and unchanged when already in range |
| Sicxe.Int32 | src/sic/sim/vm/Machine.java:529 | Java `int` wrap-around: the result is a 32-bit signed value congruent to the argument modulo 2^32 |
| Sicxe.TruncDivSpec | src/sic/sim/vm/Machine.java:148 | Java `/` rounds toward zero: the remainder is smaller than the divisor in magnitude and has the sign of the dividend |
| Sicxe.WordOfInt32 | src/sic/sim/vm/Machine.java:133-137 | truncating to 24 bits after a 32-bit wrap gives the same word as truncating the exact result, so register arithmetic need not model overflow |
| Sicxe.SignedWordRoundTrip | src/sic/sim/vm/Registers.java:58-68 | storing a word's signed reading gives the word back; the signed reading is the word, minus 2^24 when bit 23 is set |
| Sicxe.WordSignedRoundTrip | src/sic/sim/vm/Registers.java:58-68 | a value in [-2^23, 2^23) stored and read signed comes back unchanged |
| Sicxe.TruncDiv | src/sic/sim/vm/Machine.java:148 | Java `/` on `int`, rounding toward zero (see TruncDivSpec) |
| Sicxe.And32 | src/sic/sim/vm/Machine.java:273-274 | Java `&` on two 32-bit `int`s, taken bit by bit through `bv32` (used by IntEnabledIsMaskAnd) |
| Sicxe.Or32 | src/sic/sim/vm/Machine.java:275-276 | Java `\|` on two 32-bit `int`s, taken bit by bit through `bv32` (used by SHIFTL and JoinAsWrittenSnoc) |
| Sicxe.Shl32 | src/sic/sim/vm/Machine.java:153-154 | Java `<<` for a distance below 32: multiplication by 2^k, wrapped to 32 bits |
| Sicxe.Sar32 | src/sic/sim/vm/Machine.java:155-156 | Java `>>` for a distance below 32: floor division by 2^k, which stays a 32-bit `int` |
| Memories.Slot | src/sic/sim/vm/Machine.java:15-20 | every address names one of the 2^20 bytes, congruent to it modulo 2^20 |
| Memories.ByteAt | src/sic/sim/vm/Machine.java:323-328 | the byte at the address reduced modulo 2^20 (see Slot) |
| Memories.WordAt | src/sic/sim/vm/Machine.java:316-321 | the big-endian word of the three bytes from the address on (see WordRoundTrip) |
| Memories.WithByte | src/sic/sim/vm/Machine.java:343-347 | after a byte store, the byte at the address reads back as the value modulo 256 |
| Memories.WithByteFrame | src/sic/sim/vm/Machine.java:343-347 | a byte store changes no other byte |
| Memories.WithWord | src/sic/sim/vm/Machine.java:337-341 | memory after a word store, keeping its size (see WordRoundTrip, WordFrame, WordFrameWord) |
| Memories.StoreWords | src/sic/sim/vm/Interrupt.java:45-52 | memory after consecutive word stores, keeping its size (see StoreWordsRead, StoreWordsFrame) |
| Memories.WordRoundTrip | src/sic/sim/vm/Machine.java:337-341 | a stored word reads back as the value's low 24 bits |
| Memories.WordFrame | src/sic/sim/vm/Machine.java:337-341 | a word store changes no byte outside its three slots |
| Memories.WordFrameWord | src/sic/sim/vm/Machine.java:337-341 | a word store leaves every non-overlapping word unchanged |
| Memories.StoreWordsRead | src/sic/sim/vm/Interrupt.java:45-52 | after consecutive word stores, the k-th word reads back as the k-th value's low 24 bits |
| Memories.StoreWordsFrame | src/sic/sim/vm/Interrupt.java:45-52 | consecutive word stores change no byte outside the stored range |
| Memories.Memory.constructor | src/sic/sim/vm/Machine.java:20 | memory starts as 2^20 zero bytes |
| Memories.Memory.GetByte | src/sic/sim/vm/Machine.java:323-328 | reads the byte at the address modulo 2^20 |
| Memories.Memory.GetWord | src/sic/sim/vm/Machine.java:316-321 | reads the big-endian word at the address |
| Memories.Memory.SetByte | src/sic/sim/vm/Machine.java:343-347 | the new memory is the old one with the byte stored (see WithByte, WithByteFrame) |
| Memories.Memory.SetWord | src/sic/sim/vm/Machine.java:337-341 | the new memory is the old one with the word stored (see WordRoundTrip, WordFrame) |
| Memories.Memory.SetWords | src/sic/sim/vm/Interrupt.java:45-52 | a loop of word stores leaves memory equal to the consecutive stores of all the values |
| InterruptClasses.Value | src/sic/sim/vm/Interrupt.java:7-18 | the mask bit of each class: SVC 8, PROGRAM 4, TIMER 2, IO 1 (see ClassBitsDistinct, IntEnabledIsMaskAnd) |
| InterruptClasses.WorkArea | src/sic/sim/vm/Interrupt.java:29-41 | `getWorkArea`: 0x100, 0x130, 0x160 and 0x190 for SVC, PROGRAM, TIMER and IO (see WorkAreasDisjoint) |
| InterruptClasses.ClassBitsDistinct | src/sic/sim/vm/Interrupt.java:7-18 | SVC, PROGRAM, TIMER and IO are the single bits 8, 4, 2 and 1, each different |
| InterruptClasses.WorkAreasDisjoint | src/sic/sim/vm/Interrupt.java:29-41 | the 36-byte work areas at 0x100, 0x130, 0x160 and 0x190 do not overlap |
| Interrupts.SavedWords | src/sic/sim/vm/Interrupt.java:45-52 | the integer context saved is eight words: SW, PC, A, X, L, B, S, T (the F slot of line 53 is left out) |
| Interrupts.Saved | src/sic/sim/vm/Interrupt.java:43-54 | `saveRegisters` as a function of memory and registers, keeping the memory size |
| Interrupts.Trigger | src/sic/sim/vm/Interrupt.java:60-66 | `trigger` as a function of registers and memory, keeping the memory size |
| Interrupts.SavedFrame | src/sic/sim/vm/Interrupt.java:43-54 | saving changes no byte outside offsets 6 to 29 of the class's area. The source also writes F at offsets 30 to 35; that slot is left out here, so this frame holds for the model only |
| Interrupts.SavedKeepsVector | src/sic/sim/vm/Interrupt.java:43-66 | saving leaves the handler's SW and PC words at offsets 0 and 3 unchanged |
| Interrupts.SavedSlots | src/sic/sim/vm/Interrupt.java:45-52 | the words at offsets 6 to 27 read back as the packed SW and the PC, A, X, L, B, S and T from before the interrupt |
| Interrupts.TriggerLoadsHandler | src/sic/sim/vm/Interrupt.java:60-66 | after `trigger`: SW is the decoded word at offset 0 and PC the word at offset 3, both from before the save; all other registers are unchanged; memory holds the saved context |
| Interrupts.TriggerIgnoresCode | src/sic/sim/vm/Interrupt.java:60-66 | the interrupt code has no effect on `trigger` |
| Interrupts.SaveRegisters | src/sic/sim/vm/Interrupt.java:43-54 | memory after the in-place save equals `Saved` of the old memory |
| Interrupts.TriggerInterrupt | src/sic/sim/vm/Interrupt.java:60-66 | registers and memory after the in-place trigger equal `Trigger` of the old ones |
| RegisterFile.StatusWord.IsLower | src/sic/sim/vm/Registers.java:163-165 | CC is negative (see CcTrichotomy) |
| RegisterFile.StatusWord.IsEqual | src/sic/sim/vm/Registers.java:167-169 | CC is zero (see CcTrichotomy) |
| RegisterFile.StatusWord.IsGreater | src/sic/sim/vm/Registers.java:171-173 | CC is positive (see CcTrichotomy) |
| RegisterFile.StatusWord.IsSupervisor | src/sic/sim/vm/Registers.java:175-177 | MODE is 1; the privilege gate lets every instruction through in this mode (see UnblockedInstruction) |
| RegisterFile.StatusWord.IntEnabled | src/sic/sim/vm/Registers.java:211-213 | the class's own MASK bit is set (see IntEnabledIsMaskAnd) |
| RegisterFile.Pack | src/sic/sim/vm/Registers.java:146-161 | `getSW` as a function of the fields (see PackLayout, PackUnpack) |
| RegisterFile.Unpack | src/sic/sim/vm/Registers.java:191-205 | `setSW` as a function of the word (see PackUnpack, SetSWOfGetSW) |
| RegisterFile.RegState.ALo | src/sic/sim/vm/Registers.java:70-72 | `getALo`: the low byte of A (see WithALo) |
| RegisterFile.RegState.Get | src/sic/sim/vm/Registers.java:227-241 | `get` by index (see SetThenGet, SetLeavesOthers, InvalidIndex) |
| RegisterFile.RegState.Gets | src/sic/sim/vm/Registers.java:243-259 | `gets` by index, the signed readings (see SetThenGet, InvalidIndex) |
| RegisterFile.RegState.Set | src/sic/sim/vm/Registers.java:261-274 | `set` by index (see SetThenGet, SetLeavesOthers, InvalidIndex) |
| RegisterFile.PackLayout | src/sic/sim/vm/Registers.java:146-161 | packed SW layout: MODE bit 0, IDLE bit 1, ID bits 2-5, CC bits 6-7 (01 for CC>0, 10 for CC<0), MASK bits 8-11, bits 12-15 clear, ICODE bits 16-23 |
| RegisterFile.PackUnpack | src/sic/sim/vm/Registers.java:191-205 | decoding a packed SW restores MODE, IDLE, ID and MASK, negates the sign of CC and keeps only bit 3 of ICODE |
| RegisterFile.SetSWOfGetSW | src/sic/sim/vm/Registers.java:271 | `set(rSW, get(rSW))` leaves SW with the same quirks: CC's sign negated, ICODE reduced to bit 3 |
| RegisterFile.IntEnabledIsMaskAnd | src/sic/sim/vm/Registers.java:211-213 | a class is enabled exactly when MASK AND the class value is positive |
| RegisterFile.CcTrichotomy | src/sic/sim/vm/Registers.java:163-173 | exactly one of lower, equal and greater holds for every CC |
| RegisterFile.RegState.WithALo | src/sic/sim/vm/Registers.java:70-76 | `setALo` keeps bits 8-23 of A, and the low byte then reads back as the value's low byte |
| RegisterFile.RegState.IncPC | src/sic/sim/vm/Registers.java:50-56 | incrementing PC gives PC+1, or 0 past the last address; nothing else changes |
| RegisterFile.SetThenGet | src/sic/sim/vm/Registers.java:261-274 | writing A, X, L, B, S or T by index and reading it back gives the value modulo 2^24, or its signed reading |
| RegisterFile.SetLeavesOthers | src/sic/sim/vm/Registers.java:261-274 | writing one register by index leaves every other index's reading unchanged |
| RegisterFile.InvalidIndex | src/sic/sim/vm/Registers.java:227-274 | an index outside 0-6, 8, 9 changes nothing on `set` and reads as 0 through `get` and `gets` |
| RegisterFile.Registers.constructor | src/sic/sim/vm/Registers.java:286-288 | a new register file is in the reset state |
| RegisterFile.Registers.SetPC | src/sic/sim/vm/Registers.java:46-48 | PC becomes the value modulo 2^20; nothing else changes |
| RegisterFile.Registers.IncPC | src/sic/sim/vm/Registers.java:50-56 | the in-place increment computes `RegState.IncPC` |
| RegisterFile.Registers.SetA | src/sic/sim/vm/Registers.java:66-68 | A becomes the value modulo 2^24; nothing else changes |
| RegisterFile.Registers.SetX | src/sic/sim/vm/Registers.java:86-88 | X becomes the value modulo 2^24; nothing else changes |
| RegisterFile.Registers.SetL | src/sic/sim/vm/Registers.java:98-100 | L becomes the value modulo 2^24; nothing else changes |
| RegisterFile.Registers.SetS | src/sic/sim/vm/Registers.java:110-112 | S becomes the value modulo 2^24; nothing else changes |
| RegisterFile.Registers.SetT | src/sic/sim/vm/Registers.java:122-124 | T becomes the value modulo 2^24; nothing else changes |
| RegisterFile.Registers.SetB | src/sic/sim/vm/Registers.java:134-136 | B becomes the value modulo 2^24; nothing else changes |
| RegisterFile.Registers.SetF | src/sic/sim/vm/Registers.java:142-144 | F becomes the value; nothing else changes |
| RegisterFile.Registers.SetALo | src/sic/sim/vm/Registers.java:74-76 | only the low byte of A changes, to the value's low byte |
| RegisterFile.Registers.SetSW | src/sic/sim/vm/Registers.java:191-205 | SW becomes the decoded word (see PackUnpack); nothing else changes |
| RegisterFile.Registers.SetCC | src/sic/sim/vm/Registers.java:207-209 | only CC changes, to the comparison value |
| RegisterFile.Registers.SetICODE | src/sic/sim/vm/Registers.java:187-189 | only ICODE changes, to the value's low byte |
| RegisterFile.Registers.Set | src/sic/sim/vm/Registers.java:261-274 | the in-place `set` computes `RegState.Set`; an invalid index changes nothing |
| RegisterFile.Registers.Get | src/sic/sim/vm/Registers.java:227-241 | reads `RegState.Get` of the current value |
| RegisterFile.Registers.Gets | src/sic/sim/vm/Registers.java:243-259 | reads `RegState.Gets` of the current value |
| RegisterFile.Registers.Reset | src/sic/sim/vm/Registers.java:278-284 | PC, A, X, L, B, S, T and F are 0; SW has MODE 1 and every other field 0 |
| Instructions.IsF1 | src/sic/sim/vm/Machine.java:456 | FLOAT, FIX, NORM, SIO, HIO and TIO are format 1 (see FormatsDisjoint) |
| Instructions.IsF2 | src/sic/sim/vm/Machine.java:459 | the format 2 range test (see FormatTables) |
| Instructions.IsF34 | src/sic/sim/vm/Machine.java:463 | the SIC/F3/F4 range test (see FormatTables, OpcodesAligned) |
| Instructions.IsPrivileged | src/sic/sim/vm/Machine.java:89-91 | the I/O and machine-control opcodes |
| Instructions.Instruction.Privileged | src/sic/sim/vm/Machine.java:89-91 | an instruction is privileged when its opcode is, and an invalid instruction never is (lines 395-397; see DecodeSizes, UnblockedInstruction) |
| Instructions.FlagsOf | src/sic/sim/vm/Machine.java:465 | n and i from bits 1 and 0 of the opcode byte, x, b, p and e from bits 7 to 4 of the next byte (see OperandLayout, AddressingErrors) |
| Instructions.FormatTables | src/sic/sim/vm/Machine.java:456-463 | the F2 and F3/F4 range tests accept exactly the listed opcodes |
| Instructions.FormatsDisjoint | src/sic/sim/vm/Machine.java:456-514 | no opcode is in two formats, so the order of the format tests does not matter |
| Instructions.OpcodesAligned | src/sic/sim/vm/Machine.java:463 | every opcode is a byte with its two low bits clear |
| Instructions.AddressingKinds | src/sic/sim/vm/Machine.java:467-503 | exactly one of immediate, indirect and simple addressing holds; simple is n and i both set or standard SIC |
| Instructions.RelativeKinds | src/sic/sim/vm/Machine.java:484-492 | at most one of PC-relative, base-relative and absolute holds; none holds exactly when both relative flags are set |
| Instructions.OperandSic | src/sic/sim/vm/Machine.java:470 | the SIC address is 15 bits |
| Instructions.OperandF3 | src/sic/sim/vm/Machine.java:482 | the F3 displacement is 12 bits |
| Instructions.OperandF4 | src/sic/sim/vm/Machine.java:474 | the F4 address is 20 bits |
| Instructions.OperandPCRelative | src/sic/sim/vm/Machine.java:486 | the PC-relative displacement is signed 12-bit |
| Instructions.OperandLayout | src/sic/sim/vm/Machine.java:467-482 | the operand fields are the low 7, 4 or 4 bits of the flags byte followed by the next one or two bytes |
| Instructions.OperandPCRelativeWraps | src/sic/sim/vm/Machine.java:486 | the signed displacement is congruent to the 12-bit field and negative exactly when bit 11 is set |
| MachineSpec.ReadOperand | src/sic/sim/vm/Machine.java:467-493 | the operand before indexing and its size, with the relative-flag error (see F3Operand) |
| MachineSpec.DecodeAt | src/sic/sim/vm/Machine.java:443-517 | the instruction `fetchDecode` builds from the bytes at PC (see DecodeSizes, AddressingErrors, F3Operand, SicIndexing) |
| MachineSpec.ReportIllegal | src/sic/sim/vm/Machine.java:405-412 | `invalidAddressing`: PROGRAM/ILLEGAL_INSTRUCTION queued only when PROGRAM is enabled (see FetchDecodeEffects) |
| MachineSpec.ResolveAddr | src/sic/sim/vm/Machine.java:356-363 | `resolveAddr` (see ResolveAddrCases) |
| MachineSpec.NoteRead | src/sic/sim/vm/Machine.java:51-54 | `setLastExecRead`: the read span set, the write span cleared (see MemoryLoads) |
| MachineSpec.NoteWrite | src/sic/sim/vm/Machine.java:60-63 | `setLastExecWrite`: the write span set, the read span cleared (see StoreWordEffects, StoreByteEffects) |
| MachineSpec.Blocked | src/sic/sim/vm/Machine.java:521-523 | the privilege test of `execute` (see BlockedInstruction, UnblockedInstruction) |
| MachineSpec.Tick | src/sic/sim/vm/Machine.java:529-532 | the timer tick of `execute` (see TickEffects, TimerExpires) |
| MachineSpec.FetchDecode | src/sic/sim/vm/Machine.java:443-517 | `fetchDecode` as a function of the machine, keeping the memory size (see FetchDecodeEffects) |
| MachineSpec.LoadWord | src/sic/sim/vm/Machine.java:316-321 | `loadWord` as a function (see ImmediateLoads, MemoryLoads) |
| MachineSpec.LoadByte | src/sic/sim/vm/Machine.java:323-328 | `loadByte` as a function (see ImmediateLoads, MemoryLoads) |
| MachineSpec.StoreWord | src/sic/sim/vm/Machine.java:337-341 | `storeWord` as a function (see StoreWordEffects) |
| MachineSpec.StoreByte | src/sic/sim/vm/Machine.java:343-347 | `storeByte` as a function (see StoreByteEffects) |
| MachineSpec.ExecF2 | src/sic/sim/vm/Machine.java:127-173 | `InstructionF2.execute` as a function (see DivrByZero, ComprSetsCC) |
| MachineSpec.ExecStore | src/sic/sim/vm/Machine.java:192-209 | the store cases as a function, keeping the memory size |
| MachineSpec.ExecJump | src/sic/sim/vm/Machine.java:212-237 | the jump cases as a function (see JsubThenRsub, ExecAborts) |
| MachineSpec.ExecLoad | src/sic/sim/vm/Machine.java:241-256 | the load cases as a function, keeping the memory size |
| MachineSpec.ExecArith | src/sic/sim/vm/Machine.java:259-282 | the integer arithmetic cases as a function (see DivByZero, CompSetsCC, TixSteps) |
| MachineSpec.ArithOn | src/sic/sim/vm/Machine.java:259-278 | ADD to COMP on an operand word already loaded, keeping the memory size |
| MachineSpec.ExecDevice | src/sic/sim/vm/Machine.java:285-290 | RD, WD and TD: the device number is loaded as a byte, and the bus answers for that device; the memory size is kept |
| MachineSpec.Lps | src/sic/sim/vm/Machine.java:365-375 | `lps` as a function (see LpsRestoresSaved) |
| MachineSpec.ExecSicF3F4 | src/sic/sim/vm/Machine.java:187-313 | `InstructionSICF3F4.execute` as a function, keeping the memory size |
| MachineSpec.Exec | src/sic/sim/vm/Machine.java:84-116 | an instruction's `execute` as a function (see ExecAborts) |
| MachineSpec.Gate | src/sic/sim/vm/Machine.java:519-528 | the privilege gate as a function (see BlockedInstruction, UnblockedInstruction) |
| MachineSpec.Deliver | src/sic/sim/vm/Machine.java:420-438 | one interrupt triggered and its slot cleared, keeping the memory size |
| MachineSpec.Drain | src/sic/sim/vm/Machine.java:420-438 | `triggerInterrupts` as a function (see DrainIdle, DrainOne, DrainDelivers) |
| MachineSpec.Step | src/sic/sim/vm/Machine.java:519-534 | one `execute` cycle as a function (see OnlyEmptyRsubAborts, BlockedCycle) |
| MachineSpec.DecodeSizes | src/sic/sim/vm/Machine.java:443-517 | F1 fetches 1 byte with span 1; F2 fetches 2 with span 2; SIC/F3 fetch 3 and F4 fetches 4, with span equal to the bytes fetched; an invalid opcode fetches 1 byte with span 0 and is not privileged; only SIC/F3/F4 report addressing errors |
| MachineSpec.AddressingErrors | src/sic/sim/vm/Machine.java:476-510 | decode reports an addressing error exactly for F4 with a relative flag, F3 with both relative flags, or indexing that is neither simple nor indirect |
| MachineSpec.FetchDecodeEffects | src/sic/sim/vm/Machine.java:443-517 | `fetchDecode` adds 1 to the instruction count, moves PC past the fetched bytes and records the span at the old PC. It clears the read and write spans. It queues PROGRAM/ILLEGAL_INSTRUCTION for an addressing error only when PROGRAM is enabled, and changes nothing else. |
| MachineSpec.F3Operand | src/sic/sim/vm/Machine.java:467-502 | the decoded operand: PC-relative adds the PC after the instruction to a signed displacement; base-relative adds B; F4 and SIC take the address field; simple indexing adds signed X |
| MachineSpec.SicIndexing | src/sic/sim/vm/Machine.java:467-502 | an indexed standard SIC instruction is 3 bytes, raises no addressing error, and its operand is the 15-bit address plus signed X |
| MachineSpec.ResolveAddrCases | src/sic/sim/vm/Machine.java:356-363 | `resolveAddr` keeps a non-indirect address; an indirect one becomes the word at it, plus signed X only when indexed |
| MachineSpec.ImmediateLoads | src/sic/sim/vm/Machine.java:316-328 | an immediate load returns the operand and changes nothing |
| MachineSpec.MemoryLoads | src/sic/sim/vm/Machine.java:316-328 | a memory load returns the word or byte at the resolved address; it sets the read span to 3 or 1 bytes and clears the write span |
| MachineSpec.StoreWordEffects | src/sic/sim/vm/Machine.java:337-341 | a word store writes the value's low 24 bits at the resolved address and no other byte. It sets the write span and clears the read span, and nothing else changes. |
| MachineSpec.StoreByteEffects | src/sic/sim/vm/Machine.java:343-347 | a byte store writes the value modulo 256 at the resolved address and no other byte. It sets the write span to that one byte and clears the read span, and nothing else changes. |
| MachineSpec.BlockedInstruction | src/sic/sim/vm/Machine.java:519-525 | a privileged instruction in user mode with PROGRAM enabled only queues PROGRAM/PRIVILEGED_INSTRUCTION |
| MachineSpec.UnblockedInstruction | src/sic/sim/vm/Machine.java:519-528 | in supervisor mode, with PROGRAM masked, or for an invalid opcode, the gate executes the instruction |
| MachineSpec.TickEffects | src/sic/sim/vm/Machine.java:529-532 | the tick decrements the timer by one (Java `int`); it queues TIMER exactly when the timer is then at most 0 and TIMER is enabled; nothing else changes |
| MachineSpec.First | src/sic/sim/vm/Machine.java:422-437 | the class `triggerInterrupts` serves: none exactly when nothing is pending; otherwise a pending class with every higher-priority slot (SVC, PROGRAM, TIMER, IO in that order) empty |
| MachineSpec.DrainIdle | src/sic/sim/vm/Machine.java:420-438 | with no request pending, the drain changes nothing |
| MachineSpec.DrainOne | src/sic/sim/vm/Machine.java:420-438 | the drain clears exactly one slot, that of highest priority (SVC, PROGRAM, TIMER, IO); every other slot stays pending |
| MachineSpec.DrainDelivers | src/sic/sim/vm/Machine.java:420-438 | the drain triggers the request in the slot it clears |
| MachineSpec.DivrByZero | src/sic/sim/vm/Machine.java:138-150 | DIVR by a zero register leaves every register unchanged; it queues PROGRAM/ILLEGAL_INSTRUCTION exactly when PROGRAM is enabled |
| MachineSpec.DivByZero | src/sic/sim/vm/Machine.java:265-272 | DIV by a zero operand leaves the registers and the pending requests unchanged |
| MachineSpec.JsubThenRsub | src/sic/sim/vm/Machine.java:229-237 | JSUB sets L to the return PC, pushes it and jumps. A later RSUB with that L and stack returns to it and restores the stack. |
| MachineSpec.ExecAborts | src/sic/sim/vm/Machine.java:229-232 | an instruction aborts exactly when it is RSUB and the call stack is empty |
| MachineSpec.OnlyEmptyRsubAborts | src/sic/sim/vm/Machine.java:519-534 | a cycle aborts exactly when an unblocked RSUB meets an empty stack; the state is then the one the instruction left |
| MachineSpec.LpsRestoresSaved | src/sic/sim/vm/Machine.java:365-375 | `lps` on a work area holding a saved context restores PC, A, X, L, B, S and T; SW comes back decoded |
| MachineSpec.CompSetsCC | src/sic/sim/vm/Machine.java:277-278 | after COMP, CC is lower, equal or greater exactly as signed A compares with the signed operand; nothing else changes but the spans |
| MachineSpec.ComprSetsCC | src/sic/sim/vm/Machine.java:151-152 | after COMPR r1, r2, CC is lower, equal or greater exactly as signed r1 compares with signed r2 |
| MachineSpec.TixSteps | src/sic/sim/vm/Machine.java:279-282 | TIX adds 1 to X first, then sets CC from comparing the new signed X with the operand loaded with the new X |
| MachineSpec.BlockedCycle | src/sic/sim/vm/Machine.java:519-534 | a blocked cycle with no SVC pending delivers PROGRAM: SW and PC come from the PROGRAM area, and the saved PC is the PC after the blocked instruction |
| MachineSpec.TimerExpires | src/sic/sim/vm/Machine.java:529-533 | when the timer reaches 0 with TIMER enabled and no SVC or PROGRAM pending, the same cycle delivers the TIMER handler |
| Engine.Machine.constructor | src/sic/sim/vm/Machine.java:19-36 | a new machine: registers reset, memory zero, timer 0, nothing pending, empty stack and spans |
| Engine.Machine.FetchByte | src/sic/sim/vm/Machine.java:414-418 | returns the byte at PC and increments PC |
| Engine.Machine.FetchNext | src/sic/sim/vm/Machine.java:414-418 | the k-th successive fetch returns the byte k past the start |
| Engine.Machine.InvalidAddressing | src/sic/sim/vm/Machine.java:405-412 | queues PROGRAM/ILLEGAL_INSTRUCTION exactly when PROGRAM is enabled |
| Engine.Machine.FetchOperand | src/sic/sim/vm/Machine.java:467-493 | fetches the remaining operand bytes and applies relative addressing, as `ReadOperand` |
| Engine.Machine.IndexOperand | src/sic/sim/vm/Machine.java:495-510 | simple indexing adds signed X; indexing that is neither simple nor indirect is reported |
| Engine.Machine.DecodeSicF3F4 | src/sic/sim/vm/Machine.java:463-511 | the SIC/F3/F4 branch computes the instruction and size of `DecodeAt` |
| Engine.Machine.FetchInstruction | src/sic/sim/vm/Machine.java:454-514 | the format dispatch computes `DecodeAt` and moves PC past the fetched bytes |
| Engine.Machine.FetchDecode | src/sic/sim/vm/Machine.java:443-517 | the in-place `fetchDecode` computes `MachineSpec.FetchDecode` |
| Engine.Machine.SetLastExecRead | src/sic/sim/vm/Machine.java:51-54 | sets the read span and clears the write span |
| Engine.Machine.SetLastExecWrite | src/sic/sim/vm/Machine.java:60-63 | sets the write span and clears the read span |
| Engine.Machine.ResolveAddr | src/sic/sim/vm/Machine.java:356-363 | returns `MachineSpec.ResolveAddr` (see ResolveAddrCases) |
| Engine.Machine.LoadWord | src/sic/sim/vm/Machine.java:316-321 | computes `MachineSpec.LoadWord` |
| Engine.Machine.LoadByte | src/sic/sim/vm/Machine.java:323-328 | computes `MachineSpec.LoadByte` |
| Engine.Machine.StoreWord | src/sic/sim/vm/Machine.java:337-341 | computes `MachineSpec.StoreWord` |
| Engine.Machine.StoreByte | src/sic/sim/vm/Machine.java:343-347 | computes `MachineSpec.StoreByte` (see StoreByteEffects) |
| Engine.Machine.ExecuteF2 | src/sic/sim/vm/Machine.java:127-173 | computes `ExecF2` |
| Engine.Machine.ExecuteF2Arith | src/sic/sim/vm/Machine.java:132-150 | ADDR, SUBR, MULR and DIVR compute `ExecF2` |
| Engine.Machine.ExecuteF2Shift | src/sic/sim/vm/Machine.java:153-156 | SHIFTL and SHIFTR compute `ExecF2` |
| Engine.Machine.ShiftLeft | src/sic/sim/vm/Machine.java:153-154 | SHIFTL's OR of the two Java shifts computes `ExecF2` |
| Engine.Machine.ShiftRight | src/sic/sim/vm/Machine.java:155-156 | SHIFTR's arithmetic shift computes `ExecF2` |
| Engine.Machine.ExecuteF2Other | src/sic/sim/vm/Machine.java:151-171 | COMPR, RMO, CLEAR, TIXR and SVC compute `ExecF2` |
| Engine.Machine.ExecuteStore | src/sic/sim/vm/Machine.java:192-209 | computes `ExecStore` |
| Engine.Machine.ExecuteJump | src/sic/sim/vm/Machine.java:212-237 | computes `ExecJump`, abort flag included |
| Engine.Machine.ExecuteLoad | src/sic/sim/vm/Machine.java:241-256 | computes `ExecLoad` |
| Engine.Machine.ExecuteArith | src/sic/sim/vm/Machine.java:259-282 | computes `ExecArith` |
| Engine.Machine.ArithOn | src/sic/sim/vm/Machine.java:259-278 | computes `MachineSpec.ArithOn` |
| Engine.Machine.ArithmeticOn | src/sic/sim/vm/Machine.java:259-272 | ADD, SUB, MUL and DIV compute `MachineSpec.ArithOn` |
| Engine.Machine.LogicOn | src/sic/sim/vm/Machine.java:273-278 | AND, OR and COMP compute `MachineSpec.ArithOn` |
| Engine.Machine.ExecuteDevice | src/sic/sim/vm/Machine.java:285-290 | computes `ExecDevice` |
| Engine.Machine.Lps | src/sic/sim/vm/Machine.java:365-375 | computes `MachineSpec.Lps` |
| Engine.Machine.ExecuteSicF3F4 | src/sic/sim/vm/Machine.java:187-313 | computes `ExecSicF3F4` |
| Engine.Machine.ExecuteInstruction | src/sic/sim/vm/Machine.java:84-116 | computes `Exec` |
| Engine.Machine.Deliver | src/sic/sim/vm/Machine.java:420-438 | computes `MachineSpec.Deliver` |
| Engine.Machine.TriggerInterrupts | src/sic/sim/vm/Machine.java:420-438 | computes `Drain` |
| Engine.Machine.Execute | src/sic/sim/vm/Machine.java:519-534 | one in-place cycle computes `Step` |
| Fsystem.LaneOf | src/sic/sim/vm/Fsystem.java:37-40 | `Address(k).read()`: byte lane k of the cursor (see LaneSplit) |
| Fsystem.WithLane | src/sic/sim/vm/Fsystem.java:42-49 | the cursor after `Address(k).write(v)` of a byte (see WithLaneLanes) |
| Fsystem.CursorMove | src/sic/sim/vm/Fsystem.java:252-266 | the cursor after operations 0x31 to 0x35 (see CursorStepsCancel) |
| Fsystem.BigEndian | src/sic/sim/vm/Fsystem.java:101-106 | the three bytes of a word, most significant first (see SplitLanes, JoinBigEndian, BigEndianJoin) |
| Fsystem.Join | src/sic/sim/vm/Fsystem.java:79-83 | the unsigned big-endian join, the corrected reading of the loop (see JoinBigEndian, BigEndianJoin) |
| Fsystem.JoinAsWritten | src/sic/sim/vm/Fsystem.java:79-83 | the join as written, with sign-widened bytes (see JoinAsWrittenSnoc, SignExtendedRead) |
| Fsystem.LaneSplit | src/sic/sim/vm/Fsystem.java:37-40 | the cursor is its bits above 24 plus the three byte lanes that `Address(0..2).read()` return |
| Fsystem.WithLaneLanes | src/sic/sim/vm/Fsystem.java:42-49 | after `Address(k).write(v)` of a byte, lane k reads back as v; the other two lanes and the bits above 24 are unchanged |
| Fsystem.CursorStepsCancel | src/sic/sim/vm/Fsystem.java:255-266 | 0x34 then 0x32, 0x32 then 0x34, 0x35 then 0x33 and 0x33 then 0x35 each return the cursor to where it was, across Java `int` wrap-around |
| Fsystem.SplitLanes | src/sic/sim/vm/Fsystem.java:103-106 | the bytes `s & 0xff` taken after 0, 1 and 2 arithmetic shifts by 8 are the big-endian bytes of the low 24 bits |
| Fsystem.SplitInto | src/sic/sim/vm/Fsystem.java:101-106 | the split loop writes the big-endian bytes of the value's low 24 bits and no other element |
| Fsystem.JoinBigEndian | src/sic/sim/vm/Fsystem.java:101-106 | joining a word's big-endian bytes gives the word back |
| Fsystem.BigEndianJoin | src/sic/sim/vm/Fsystem.java:101-106 | three bytes joined form a word whose big-endian split is those bytes |
| Fsystem.FirstFree | src/sic/sim/vm/Fsystem.java:243-251 | the result is a file number whose file does not exist; every number below it exists; it is 0x100 when all of 0 to 0xFF exist |
| Fsystem.SignExtendedRead | src/sic/sim/vm/Fsystem.java:79-83 | S = 0x008000 splits to 00 80 00. The join as written reads these back as 0xFF8000; the unsigned join reads 0x8000. |
| Fsystem.JoinAsWrittenSnoc | src/sic/sim/vm/Fsystem.java:80-83 | one step of the join as written shifts the value left by 8 and ORs in the byte widened with its sign |
| Fsystem.ReadWordAsWritten | src/sic/sim/vm/Fsystem.java:79-83 | the join loop as written computes `JoinAsWritten` |
| Fsystem.ReadWord | src/sic/sim/vm/Fsystem.java:79-83 | the unsigned join loop computes `Join`; for three bytes the result is a word whose split is those bytes |
| Fsystem.FileSystem.constructor | src/sic/sim/vm/Fsystem.java:12-13 | file 0 selected, cursor 0 |
| Fsystem.FileSystem.FileRead | src/sic/sim/vm/Fsystem.java:20-22 | `File.read()`: the selected file number (see FileWrite) |
| Fsystem.FileSystem.AddressRead | src/sic/sim/vm/Fsystem.java:37-40 | `Address(k).read()` on the current cursor (see AddressWrite) |
| Fsystem.FileSystem.FileWrite | src/sic/sim/vm/Fsystem.java:18-28 | selects file v; `File.read()` then returns v, and the cursor is unchanged |
| Fsystem.FileSystem.AddressWrite | src/sic/sim/vm/Fsystem.java:42-49 | lane k reads back as the byte written; the other lanes and the selected file are unchanged |
| Fsystem.FileSystem.MoveCursor | src/sic/sim/vm/Fsystem.java:252-266 | 0x31 sets the cursor to 0; 0x32 and 0x34 subtract and add 1; 0x33 and 0x35 subtract and add 3, with Java `int` wrap-around; the selected file is unchanged |
| Fsystem.FileSystem.WriteWord | src/sic/sim/vm/Fsystem.java:99-114 | operation 0x03 writes the big-endian bytes of S at file position cursor+8, then advances the cursor by 3 |
| Fsystem.FileSystem.NameBytes | src/sic/sim/vm/Fsystem.java:190-202 | operation 0x22's six name bytes are the split of the cursor's low 24 bits followed by the split of S |
| Fsystem.FileSystem.FindFreeFile | src/sic/sim/vm/Fsystem.java:243-251 | operation 0x30 sets A to `FirstFree` from 0, the least free file number or 0x100, and changes no other register |

## Left out

- Floating point: F is kept as a Java `int`. This covers `set(rF, v)` and `get(rF)`, which convert through `(int)`. FLOAT, FIX, ADDF, SUBF, MULF, DIVF, COMPF, LDF and STF change nothing in the model. The F slot at offset 30 is neither saved by `saveRegisters` nor reloaded by `lps`. Host doubles have an encoding that is not part of this model.
- Device I/O: `Devices` is not part of this model. RD, WD and TD take the byte read and the ready answer from a `Bus` parameter. WD's effect on a device is not modelled.
- Logging (`Logger`, `System.out`) and the breakpoint exceptions are left out. `getByteRaw`/`getWordRaw` and the checked reads are one operation here.
- NORM, SIO, HIO, TIO and SSK only log that they are not implemented; the model leaves the state unchanged.
- RegisterFile.RegState.WithALo: `A & 0xFFFF00 | value & 0xFF` is written arithmetically, as the high part of A plus the value modulo 256. Its equality with the bitwise form is not proved.
- Fsystem.WithLane: `Address(k).write(v)` is written arithmetically, and only for a byte `v`, which is what WD sends. A `v` above 255 would set bits outside the lane in the source. Equality with the bitwise form is not proved.
- Fsystem file operations: everything that touches a host file is not part of this model. That is cases 0x00–0x02, 0x10–0x14, 0x20, 0x21 and 0x23–0x25 of `Operation.write`, plus `openFile`, `deleteFile` and `testFile`. Whether a file exists is a parameter of `FindFreeFile`. Operations 0x03 and 0x22 return the bytes they would write instead of writing them.
- Fsystem.FileSystem.MoveCursor: only opcodes 0x31–0x35 are accepted. Other opcodes log "not implemented" or do file I/O, which is left out.
- `isIdle` and `processID` are plain field reads and have no contract of their own.
- `getReturnAddress`, `clearLastExecReadWrite` and the statistics getters are debugger accessors; the spans they read are part of `Cpu`.
- The pending slots hold one request per class, as the source's four fields do. IO requests are never raised by the core.

## Findings

| source | as written | input that shows it | evidently intended | confidence | as-written member | corrected member |
|---|---|---|---|---|---|---|
| src/sic/sim/vm/Fsystem.java:79-83 | `a \|= buf[i]` ORs in a Java `byte`, which widens with its sign | S = 0x008000 written by operation 0x03 (bytes 00 80 00) reads back through operation 0x01 as A = 0xFF8000 | bytes joined unsigned (`buf[i] & 0xff`), so a word written by 0x03 reads back unchanged | not executed | Fsystem.SignExtendedRead | Fsystem.ReadWord |
| src/sic/sim/vm/Fsystem.java:146-155 | the same signed join reads the six name bytes into A and S | a name written by operation 0x22 with S = 0x008000 reads back through operation 0x12 with S = 0xFF8000 | the same unsigned join, so 0x12 returns the name that 0x22 wrote | not executed | Fsystem.SignExtendedRead | Fsystem.ReadWord |
