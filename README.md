# LC-2K toolchain core in Dafny

This project models the LC-2K teaching toolchain. LC-2K has eight opcodes and 32-bit words: the opcode sits in bits 22-24, regA in 19-21, regB in 16-18, and either a 16-bit offset in bits 0-15 or destReg in bits 0-2. The model covers four programs:

- `isa.dfy` (module `Isa`): the parts all four programs share. It holds machine words as C `int` values (`Int32`), 32-bit wrap-around, bitwise nor, the `isa[]` opcode table, the shift-and-mask field accessors, `convertNum`/`signExtend`, and the packing of fields into a word.
- `numeral.dfy` (module `Numeral`): the decimal operands the assemblers accept (`isNumber`, `atoi`, `atol`), as a prefix parser.
- `pipeline.dfy` (module `Pipeline`): the five-stage pipelined simulator, `project2/simulator.c`.
  - The old `state` of a cycle is the value `Snapshot`. The `newState` the stages write is the class `PipeState`.
  - Each stage method (`fetch`, `decode`, `execute`, `memory`, `writeback`) is proved against a pure stage function.
  - `Step` composes those functions into one cycle, and `Run` is proved to follow `RunSpec`, the loop of `run`.
- `sequential.dfy` (module `Sequential`): the sequential simulator, `project1/simulator/simulate.c`.
  - `Machine` is `stateType` with its register and memory arrays, `cunit`, and the stage methods. The stages hand their results on through the out-structs.
  - `Exec` is an independent one-instruction reference semantics. `Machine.Step`, one iteration of `run`, is proved to do exactly what `Exec` says, whatever stale values the out-structs hold.
- `strict_assembler.dfy` (module `StrictAssembler`): the validating two-pass assembler, `project1/assembler/assemble.c`.
  - The global symbol list is the class `SymbolTable`.
  - The two loops of `main` are methods, proved against the pure passes `Pass1` and `Pass2`.
- `loose_assembler.dfy` (module `LooseAssembler`): the earlier assembler, `assembler/assemble.c`, with its label and data lists, its `NOEXIST` sentinel, and with its quirks as written.
- `wrappers.dfy`: `Option` and `Result`.

Every fatal `raiseError` is an error value; what the process did before it, such as the words already written, is kept. A source line reaches the assemblers already split by `readAndParse` into label, opcode and three operands, with "" for a missing field. Loading the memory file is replaced by the initial memory as a parameter. The simulators' endless loops take a cycle or instruction bound, and their outcome says whether the run halted, faulted or was still running.

Where the code departs from the toolchain's documented design, the model follows the code:

- Opcode values outside 0-7 are not fatal in either simulator. The sequential one reads a 3-bit field, so its "unrecognized opcode" error cannot happen. The pipelined one treats a larger `instr>>22` (a data word) like `noop`.
- The loose assembler gives blank lines an address and a word too. It checks no register operand: it keeps the low 3 bits of `atoi`.
- The strict assembler fails after writing the words of the lines before the failing one.
- `__isValidLabel` inspects only the length and the first character.

## Model

| member | source | states |
|---|---|---|
| Isa.WrapSpec | project2/simulator.c:208-224 | a C `int` sum or difference keeps its value modulo 2^32, and is unchanged when it fits in 32 bits |
| Isa.Unsigned | project1/simulator/simulate.c:186-191 | reading a word as `word_t` gives the value in [0, 2^32) with the same bits |
| Isa.UnsignedAtLeast | project1/simulator/simulate.c:186-198 | the unsigned check `addr >= n` rejects exactly the negative addresses and those at or above `n` |
| Isa.NorSpec | project2/simulator.c:212-215 | nor's bits are the complement of the or of its operands' bits, in either operand order |
| Isa.WrapZero | project2/simulator.c:221-224 | `A - B` wraps to 0 exactly when A equals B, so a beq is taken exactly on equal operands |
| Isa.IsaCoversOpcodes | project1/simulator/simulate.c:67-76 | entry i of `isa[]` has opcode i, so every 3-bit opcode is listed |
| Isa.FindMnemonic | project1/assembler/assemble.c:321-323 | the search of `isa[]` finds an entry with the mnemonic exactly when one exists, and that entry has the name |
| Isa.FindBeq | project1/assembler/assemble.c:72 | the mnemonic `beq` is found at opcode 4's entry |
| Isa.Field0 | project2/simulator.c:374-378 | `(instr>>19) & 0x7` is a register number 0-7 |
| Isa.Field1 | project2/simulator.c:380-384 | `(instr>>16) & 0x7` is a register number 0-7 |
| Isa.Field2 | project2/simulator.c:386-390 | `instr & 0xFFFF` lies in [0, 2^16) |
| Isa.DestReg | project2/simulator.c:276 | `instr & 0x7` is a register number 0-7 |
| Isa.Opcode | project2/simulator.c:392-396 | `instr>>22` is an arithmetic shift in [-512, 511], since nothing masks bits 25-31 |
| Isa.OpBits | project1/simulator/simulate.c:41-45 | the 3-bit `opcode` bit-field lies in 0-7 |
| Isa.ConvertNum | project2/simulator.c:68-71 | sign extension of the low 16 bits gives a value in [-32768, 32767] congruent to the input modulo 2^16 |
| Isa.Encode | project1/assembler/assemble.c:328-356 | packing opcode, regA, regB and the low field leaves bits 25-31 zero |
| Isa.DecodeEncode | project2/simulator.c:374-396 | the accessors give back every packed field: opcode (both ways of reading it), regA, regB, the 16-bit field and its low 3 bits as destReg |
| Isa.EncodeDecode | project2/simulator.c:374-396 | a word with bits 25-31 clear is the packing of its own fields |
| Isa.OpcodeInRange | project2/simulator.c:392-396 | `instr>>22` names one of the eight opcodes exactly when bits 25-31 are clear, and then equals the 3-bit field |
| Isa.ConvertNumInverse | project1/assembler/assemble.c:294 | sign extension is the identity on 16-bit values and undoes the 16-bit mask |
| Numeral.LeadingInt | project1/assembler/assemble.c:402-406 | `sscanf("%d")` accepts a token exactly when it starts with a digit, or with a sign followed by a digit |
| Numeral.LeadingDigits | project1/assembler/assemble.c:402-406 | a run of digits followed by a non-digit reads as its decimal value |
| Numeral.LeadingIntDecimal | project1/assembler/assemble.c:402-406 | the numeral of any integer, with a sign when negative, reads back as that integer whatever follows it |
| Numeral.IsNumber | project1/assembler/assemble.c:402-406 | `isNumber` holds exactly on a token that starts with a digit, or with a sign followed by a digit |
| Numeral.Atoi | assembler/assemble.c:201 | `atoi` of a token that is not a numeral is 0; of a numeral it is the value modulo 2^32 as an `int`, the value itself when it fits |
| Pipeline.InitState | project2/simulator.c:160-171 | the start state has pc 0, cycles 0 and all registers 0; IFID, IDEX, EXMEM and WBEND hold `noop`; MEMWB is zero; both memories are the prototype's |
| Pipeline.FetchStage | project2/simulator.c:174-181 | a pc outside [0, NUMMEMORY) is ER_OUTOFBOUNDMEM with that pc; otherwise IFID gets instrMem[pc] and pc + 1, the pc becomes pc + 1, and nothing else in `newState` changes |
| Pipeline.DecodeStage | project2/simulator.c:183-196 | only IDEX changes: it gets IFID's word and pcPlus1, regA and regB from the old register file with register 0 read as 0, and an offset in [-32768, 32767] congruent to the word modulo 2^16 |
| Pipeline.ExecuteStage | project2/simulator.c:198-228 | only EXMEM changes: it gets IDEX's word and readRegB, a branch target equal to pcPlus1 + offset modulo 2^32, and the ALU result over `newState`'s previous one |
| Pipeline.AluResult | project2/simulator.c:207-227 | a beq result is zero exactly when its operands are equal; an opcode without an ALU operation keeps the previous result |
| Pipeline.MemoryStage | project2/simulator.c:230-262 | faults exactly on an lw or sw address outside [0, NUMMEMORY), with that address; otherwise MEMWB gets EXMEM's word, only sw changes data memory, a taken beq sets the pc to its target and squashes IFID, IDEX and EXMEM, and nothing else changes |
| Pipeline.WritebackStage | project2/simulator.c:264-286 | WBEND copies MEMWB; add and nor change only reg[destReg], lw only reg[regB], any other opcode no register, and nothing else changes |
| Pipeline.RunSpec | project2/simulator.c:296-328 | a halt already in MEMWB ends the run at once, a run ends `Halted` only with halt in MEMWB, and every state reached is well formed |
| Pipeline.Step | project2/simulator.c:306-324 | a cycle that does not fault keeps both memories and the register file at their sizes |
| Pipeline.StepStages | project2/simulator.c:306-322 | a cycle is IF, ID, EX, MEM and WB in that order, each reading the old state, and a fault in IF or MEM ends it |
| Pipeline.RunSpecStep | project2/simulator.c:296-328 | without halt in MEMWB and without a fault, the rest of the run continues from the next state |
| Pipeline.StepFault | project2/simulator.c:176-177 | a cycle faults exactly when the pc or an lw/sw address in MEM is outside [0, NUMMEMORY), and fetch's fault is reported first |
| Pipeline.StepFetch | project2/simulator.c:174-181 | IFID gets instrMem[pc] and pc + 1 and the pc advances, unless a taken beq in MEM redirects the pc to its target and squashes IFID; cycles grows by one |
| Pipeline.StepDecode | project2/simulator.c:183-196 | IDEX gets instr and pcPlus1, operands from the old registers with register 0 read as 0, and the sign-extended offset; a taken beq squashes the instruction |
| Pipeline.StepExecute | project2/simulator.c:198-228 | EXMEM gets branchTarget = pcPlus1 + offset for every opcode, the ALU result, and readRegB; a taken beq squashes the instruction |
| Pipeline.StepMemory | project2/simulator.c:230-262 | MEMWB gets the ALU result for add and nor and the loaded word for lw, and only sw changes data memory |
| Pipeline.StepWriteback | project2/simulator.c:264-286 | WBEND copies MEMWB; add and nor write reg[instr & 7], lw writes reg[regB], and no other opcode changes a register |
| Pipeline.AluSpec | project2/simulator.c:207-227 | the ALU gives A + B, ~(A \| B), A + offset and A - B modulo 2^32 for add, nor, lw/sw and beq |
| Pipeline.StepAdvances | project2/simulator.c:306-322 | without a fault, a memory access or a beq in MEM, every instruction moves down one latch, and only writeback of add, nor or lw changes registers |
| Pipeline.CycleOutcome | project2/simulator.c:306-324 | a cycle after a failed halt check either faults with the pc or the lw/sw address, or hands the run to a state one cycle on with the same instruction memory |
| Pipeline.RunSpecEnds | project2/simulator.c:296-328 | a run ends with halt in MEMWB (at once exactly when the start state has it), a faulting cycle, or the cycle bound; each cycle adds one to `cycles`, and instruction memory never changes |
| Pipeline.QuietCycle | project2/simulator.c:306-324 | a cycle whose MEM and WB instructions do nothing only shifts the pipeline by one latch |
| Pipeline.HaltDrainsFrom | project2/simulator.c:300-304 | a halt k latches before MEMWB, with only inert instructions ahead of it, stops the run after exactly k cycles, registers and data memory untouched |
| Pipeline.FirstCycle | project2/simulator.c:291-294 | the first cycle only shifts the pipeline, because the zeroed MEMWB holds `add 0 0 0` |
| Pipeline.HaltDrains | project2/simulator.c:296-328 | a program that starts with halt stops after four cycles with zero registers and the data memory as loaded |
| Pipeline.PipeState.constructor | project2/simulator.c:292 | `newState = {0,}` allocates fresh, separate memories and register file |
| Pipeline.PipeState.Load | project2/simulator.c:306 | `newState = state` makes `newState` equal to the old state |
| Pipeline.PipeState.Fetch | project2/simulator.c:174-181 | the fetch stage does what `FetchStage` says, or reports its fault |
| Pipeline.PipeState.Decode | project2/simulator.c:183-196 | the decode stage does what `DecodeStage` says |
| Pipeline.PipeState.Execute | project2/simulator.c:198-228 | the execute stage does what `ExecuteStage` says |
| Pipeline.PipeState.Memory | project2/simulator.c:230-262 | the memory stage does what `MemoryStage` says, or reports its fault |
| Pipeline.PipeState.Writeback | project2/simulator.c:264-286 | the writeback stage does what `WritebackStage` says |
| Pipeline.PipeState.Cycle | project2/simulator.c:306-322 | the loop body leaves `newState` equal to `Step` of the old state, or reports `Step`'s fault |
| Pipeline.RunOnce | project2/simulator.c:296-327 | one pass stops with `RunSpec`'s outcome, or advances to a state whose remaining run is the same |
| Pipeline.RunFrom | project2/simulator.c:296-328 | the loop's outcome is `RunSpec` of the start state |
| Pipeline.Run | project2/simulator.c:289-329 | `run` is `RunSpec` from `__initState` of the prototype |
| Sequential.InBoundsRange | project1/simulator/simulate.c:186-198 | an address passes the unsigned bound check exactly when 0 <= addr < numMemory |
| Sequential.Exec | project1/simulator/simulate.c:205-334 | an instruction that completes was fetched from within the loaded words, and leaves a state of the same shape |
| Sequential.ExecKeepsReg0 | project1/simulator/simulate.c:179-184 | no instruction changes register 0 |
| Sequential.ExecControl | project1/simulator/simulate.c:285-291 | pc becomes pc + 1, pc + 1 + offset for a taken beq, or the value of regA read after jalr wrote pc + 1 to regB; only sw writes memory; beq, sw and noop keep the registers |
| Sequential.JalrSameRegister | project1/simulator/simulate.c:246-249 | jalr with regA equal to regB continues at pc + 1 |
| Sequential.ExecAdd | project1/simulator/simulate.c:272-274 | add stores regA + regB modulo 2^32 in destReg |
| Sequential.ExecNor | project1/simulator/simulate.c:275-277 | nor stores the complement of the or of regA and regB in destReg |
| Sequential.ExecAddress | project1/simulator/simulate.c:278-284 | lw and sw fault exactly when regA + offset, wrapped and read unsigned, is not below numMemory; otherwise lw loads that word into regB and sw stores regB there |
| Sequential.ExecWriteReg0 | project1/simulator/simulate.c:319-333 | an instruction is fatal with ER_WRITEREG0 exactly when add or nor has destReg 0, a valid lw has regB 0, or jalr has regB 0 |
| Sequential.RunSpecEnds | project1/simulator/simulate.c:336-357 | a halted run counts the halt, whose word lies just before the final pc; each instruction counts once; register 0 stays 0 |
| Sequential.RunSpec | project1/simulator/simulate.c:336-357 | a run that halts or faults counts between 1 and `fuel` more instructions, the halting or faulting one included; a cut-off run counts exactly `fuel` more |
| Sequential.ReadRegAdmitsEight | project1/simulator/simulate.c:172-177 | the bound as written lets register number 8 through, and no 3-bit field can name it |
| Sequential.LookupOpcode | project1/simulator/simulate.c:227-258 | decode's search of `isa[]` always finds the opcode, at its own index |
| Sequential.Machine.constructor | project1/simulator/simulate.c:153-157 | the state is zero except for the program's words from address 0 and `numMemory`, their count |
| Sequential.Machine.ReadReg | project1/simulator/simulate.c:172-177 | a register read succeeds exactly for numbers below NUMREGS and returns that register, else ER_OUTOFBOUNDREG |
| Sequential.Machine.WriteReg | project1/simulator/simulate.c:179-184 | writing register 0 is fatal and changes nothing; any other write changes just that register |
| Sequential.Machine.ReadMem | project1/simulator/simulate.c:186-191 | a read succeeds exactly below numMemory, compared unsigned, and returns that word |
| Sequential.Machine.WriteMem | project1/simulator/simulate.c:193-198 | a write outside the loaded words is fatal and changes nothing; otherwise it changes just that word |
| Sequential.Machine.Fetch | project1/simulator/simulate.c:205-209 | fetch returns mem[pc] and advances pc by 1, or faults without a change |
| Sequential.Machine.Decode | project1/simulator/simulate.c:219-259 | decode sets `cunit` and reads the operands the format names; jalr writes pc + 1 into regB before reading regA; halt stops; other fields keep their stale values |
| Sequential.Machine.Execute | project1/simulator/simulate.c:268-295 | execute computes add and nor results and lw/sw addresses modulo 2^32, and sets pc for a taken beq and for jalr |
| Sequential.Machine.Memory | project1/simulator/simulate.c:303-317 | lw reads and sw writes the addressed word, faulting outside the loaded words; other opcodes pass the data on |
| Sequential.Machine.Writeback | project1/simulator/simulate.c:319-334 | add, nor and lw write destReg, fatally when it is 0; other opcodes write nothing |
| Sequential.Machine.Step | project1/simulator/simulate.c:344-353 | the loop body does exactly what `Exec` says: its error, halt with pc + 1, or the next state |
| Sequential.Machine.Finish | project1/simulator/simulate.c:350-352 | execute, memory and writeback after decode together do what `Exec` says |
| Sequential.Machine.ExecuteMemory | project1/simulator/simulate.c:350-351 | execute and memory fault only for an lw or sw outside the loaded words; otherwise only the register write is left |
| Sequential.Machine.Run | project1/simulator/simulate.c:336-357 | `run`'s outcome and count are `RunSpec`'s, and the machine is left in the outcome's state |
| StrictAssembler.Find | project1/assembler/assemble.c:200-208 | the lookup finds a listed entry with the name, and finds none exactly when no entry has it |
| StrictAssembler.FindAppend | project1/assembler/assemble.c:180-199 | after an append, a name resolves as before, or to the new entry if it was missing |
| StrictAssembler.FindUnique | project1/assembler/assemble.c:200-208 | in a list without duplicates every entry is what its own name finds |
| StrictAssembler.IsValidLabel | project1/assembler/assemble.c:231-239 | a valid label has 1 to 6 characters and never reads as a number, so the operand functions look it up as a label |
| StrictAssembler.DefineLabel | project1/assembler/assemble.c:241-247 | succeeds exactly on a valid name that no entry has, appending it at the end; otherwise ER_LABELINVALID for an invalid name, else ER_DUPLICATE |
| StrictAssembler.DefineLabelSpec | project1/assembler/assemble.c:231-247 | `addLabel` fails exactly on an invalid or existing name, invalid first; otherwise it appends, the name resolves to its address, other names resolve as before, and names stay unique |
| StrictAssembler.SymbolTable.constructor | project1/assembler/assemble.c:59 | the list starts empty |
| StrictAssembler.SymbolTable.AddSymbol | project1/assembler/assemble.c:180-199 | an entry is linked at the end of the list |
| StrictAssembler.SymbolTable.ReadSymbol | project1/assembler/assemble.c:200-208 | walking the list returns what `Find` does, `None` standing for `notfound` |
| StrictAssembler.SymbolTable.AddLabel | project1/assembler/assemble.c:241-247 | the list becomes `DefineLabel`'s, or stays as it was with `DefineLabel`'s error |
| StrictAssembler.GetReg | project1/assembler/assemble.c:261-271 | a register operand succeeds exactly for one character '0'-'7' and yields its digit; anything else is ER_WRONGREG |
| StrictAssembler.FitOffset | project1/assembler/assemble.c:291-294 | an offset passes exactly when it lies in [-32768, 32767] |
| StrictAssembler.GetOffset | project1/assembler/assemble.c:272-295 | a literal outside 32 bits is ER_WORDOVFL, and one inside is the offset itself, ER_OFFSETOVFL when outside 16 bits; an unknown label is ER_UNDEFINED; a label gives target - pc - 1 for beq and target otherwise, ER_OFFSETOVFL when outside 16 bits |
| StrictAssembler.GetData | project1/assembler/assemble.c:296-315 | `.fill` gives a 32-bit literal or a label's absolute address with no 16-bit limit; otherwise ER_WORDOVFL or ER_UNDEFINED |
| StrictAssembler.TranslateInstruction | project1/assembler/assemble.c:322-359 | a word for a mnemonic has bits 25-31 clear and the mnemonic's opcode in `instr >> 22`; it fails only with ER_INSUFFICIENT, ER_WRONGREG or an operand's number or label error |
| StrictAssembler.Translate | project1/assembler/assemble.c:316-371 | a mnemonic's word has bits 25-31 clear and its opcode; a name that is neither a mnemonic nor `.fill` is ER_UNRECOGNIZE; `translate` never raises a label-definition error |
| StrictAssembler.TranslateErrors | project1/assembler/assemble.c:326-350 | for a mnemonic: ER_INSUFFICIENT exactly when an operand its format uses is missing; otherwise ER_WRONGREG for a bad register operand; otherwise, for I-type, the offset's error; otherwise a word |
| StrictAssembler.EncodePacks | project1/assembler/assemble.c:328-356 | a packed word reads back its opcode, regA, regB and low field, with bits 25-31 zero |
| StrictAssembler.DecodesRType | project1/assembler/assemble.c:325-334 | an R-type word reads back its opcode, regA, regB and destReg |
| StrictAssembler.DecodesIType | project1/assembler/assemble.c:335-343 | an I-type word reads back its opcode and registers, and sign-extends back to the offset |
| StrictAssembler.DecodesJType | project1/assembler/assemble.c:344-352 | a J-type word reads back its opcode and registers, with the low half zero |
| StrictAssembler.TranslateDecodes | project1/assembler/assemble.c:316-360 | decoding what `translate` packed for a mnemonic gives back the opcode and every operand its format has, and zero elsewhere |
| StrictAssembler.TranslateOthers | project1/assembler/assemble.c:361-370 | `.fill` assembles to its data word or ER_INSUFFICIENT; any other unknown opcode is ER_UNRECOGNIZE |
| StrictAssembler.Ops | project1/assembler/assemble.c:146-148 | the lines both passes handle all have an opcode |
| StrictAssembler.Pass1 | project1/assembler/assemble.c:144-155 | the list has at most one entry per line with an opcode, each a valid label naming one of those lines' addresses |
| StrictAssembler.Pass2 | project1/assembler/assemble.c:157-169 | without an error, one word per line with an opcode; on an error, the words of the lines before the failing one, whose translation is the error reported |
| StrictAssembler.Assembly | project1/assembler/assemble.c:144-172 | a pass-1 error writes nothing; a successful assembly writes one word per line with an opcode; a pass-2 failure writes fewer |
| StrictAssembler.Pass1ErrorPersists | project1/assembler/assemble.c:146-153 | an error in pass 1 on some line is the error of the whole pass |
| StrictAssembler.EmitErrorPersists | project1/assembler/assemble.c:159-169 | once a translation fails, later lines change nothing |
| StrictAssembler.EmitStep | project1/assembler/assemble.c:159-169 | pass 2 with one more translation writes its word, or stops with its error |
| StrictAssembler.OpsStep | project1/assembler/assemble.c:159-168 | the next line with an opcode is the next to be translated, at the next address |
| StrictAssembler.Pass1Step | project1/assembler/assemble.c:146-153 | a line with an opcode and a label enters the label at the number of such lines before it |
| StrictAssembler.FirstPass | project1/assembler/assemble.c:145-153 | the first loop builds `Pass1`'s symbol list or stops with its error |
| StrictAssembler.SecondPass | project1/assembler/assemble.c:158-169 | the second loop writes `Pass2`'s words and stops with its error |
| StrictAssembler.Assemble | project1/assembler/assemble.c:145-172 | `main` produces `Assembly`'s outcome |
| StrictAssembler.Pass1Unique | project1/assembler/assemble.c:146-153 | the labels pass 1 enters are unique |
| StrictAssembler.Pass1Address | project1/assembler/assemble.c:145-153 | the label of a line with an opcode resolves to k when k lines with an opcode precede it |
| StrictAssembler.Pass1OnlyDefines | project1/assembler/assemble.c:147-151 | only labels of lines with an opcode are entered |
| StrictAssembler.DuplicateFails | project1/assembler/assemble.c:244-245 | a label on two lines with an opcode fails pass 1, so nothing is written |
| StrictAssembler.EmitAt | project1/assembler/assemble.c:159-169 | without an error, word k written is translation k |
| StrictAssembler.EmitLength | project1/assembler/assemble.c:159-169 | without an error, one word is written per translation |
| StrictAssembler.EmitFailure | project1/assembler/assemble.c:159-169 | on an error, the words written are the translations before the first failing one, whose error is reported |
| StrictAssembler.Pass2Emits | project1/assembler/assemble.c:158-169 | pass 2 without error writes one word per line with an opcode, the k-th translated at address k |
| StrictAssembler.AssembledWords | project1/assembler/assemble.c:145-172 | a successful assembly writes one word per line with an opcode, translated with pass 1's labels |
| LooseAssembler.Lookup | assembler/assemble.c:164-174 | a name no entry has reads as NOEXIST |
| LooseAssembler.DataWord | assembler/assemble.c:201 | a numeral reads as its `atoi`, any other token as the word of the first label entry with that name, or NOEXIST when there is none |
| LooseAssembler.LookupFirst | assembler/assemble.c:164-174 | an entry is what its name reads unless an earlier entry has the name, so duplicates are shadowed |
| LooseAssembler.AddEntry | assembler/assemble.c:199-203 | `addData` appends the operand's `atoi` when it is a numeral, otherwise the word of the first label entry of that name, in both cases only when the word is not NOEXIST; a name with no label entry adds nothing |
| LooseAssembler.Pass1Step | assembler/assemble.c:110-119 | every line takes the next address; a labelled line appends its label, and a labelled `.fill` its data entry |
| LooseAssembler.Pass1 | assembler/assemble.c:109-119 | at most one label entry per line, each named and holding a line's address; at most one data entry per label entry, each named and never NOEXIST |
| LooseAssembler.LabelTable | assembler/assemble.c:110-119 | a label reads as the address of its first defining line, blank lines counted; an undefined or empty name reads as NOEXIST |
| LooseAssembler.DataStable | assembler/assemble.c:112-116 | lines without a given label leave its data entry unchanged |
| LooseAssembler.RegField | assembler/assemble.c:232-235 | a register field keeps the low 3 bits of `atoi` |
| LooseAssembler.Offset | assembler/assemble.c:242-250 | a numeric offset is `atoi` truncated to 16 bits; a label gives sym - pc - 1 for beq and sym otherwise; the offset is missing exactly when the label is |
| LooseAssembler.Translate | assembler/assemble.c:221-271 | a word exactly for a mnemonic, with bits 25-31 clear |
| LooseAssembler.TranslateDecodes | assembler/assemble.c:221-271 | a word is produced exactly for a mnemonic; it reads back the opcode and each operand's low bits, and an I-type word with an unknown label is 0 |
| LooseAssembler.OffsetReadsBack | assembler/assemble.c:242-246 | the sign-extended field is the intended offset when it fits in 16 bits, and congruent to it modulo 2^16 anyway |
| LooseAssembler.Pass2 | assembler/assemble.c:124-132 | pass 2 writes one word per line, blank lines included |
| LooseAssembler.LineWord | assembler/assemble.c:125-129 | a `.fill` line reads the data list under its own label; any other line has a word exactly when its opcode is a mnemonic, with bits 25-31 clear |
| LooseAssembler.Pass2Step | assembler/assemble.c:124-132 | one more line appends that line's word |
| LooseAssembler.Pass2At | assembler/assemble.c:124-132 | word k is the word of line k at address k |
| LooseAssembler.Assembly | assembler/assemble.c:110-132 | the output has one entry per line |
| LooseAssembler.FillWord | assembler/assemble.c:125-126 | a uniquely labelled `.fill` assembles to its number, or to the address of a label defined up to its line, or to NOEXIST for a forward reference |
| LooseAssembler.FillEntry | assembler/assemble.c:114-116 | the data entry of a uniquely labelled `.fill` is the word its operand had when pass 1 reached that line |
| LooseAssembler.FillWithoutLabel | assembler/assemble.c:125-126 | a `.fill` without a label assembles to NOEXIST |
| LooseAssembler.NoUnnamedData | assembler/assemble.c:112-116 | no data entry has the empty name |
| LooseAssembler.BranchLandsOnLabel | assembler/assemble.c:242-246 | a beq to a label lands on that label's first line when the distance fits in 16 bits, and its regA is the line's own label read by `atoi` |
| LooseAssembler.SymbolLists.constructor | assembler/assemble.c:53-54 | both lists start empty |
| LooseAssembler.SymbolLists.AddSymbol | assembler/assemble.c:140-163 | an entry is linked at the end of the chosen list and the other list is unchanged |
| LooseAssembler.SymbolLists.ReadSymbol | assembler/assemble.c:164-174 | walking the chosen list returns what `Lookup` does |
| LooseAssembler.SymbolLists.AddLabel | assembler/assemble.c:196-198 | a label is appended without any check |
| LooseAssembler.SymbolLists.AddData | assembler/assemble.c:199-203 | the data list becomes `AddEntry`'s, and an entry is made exactly when the word is not NOEXIST |
| LooseAssembler.SymbolLists.ReadLabel | assembler/assemble.c:204-206 | a label reads as `Lookup` on the label list |
| LooseAssembler.SymbolLists.ReadData | assembler/assemble.c:207-209 | a data word reads as `Lookup` on the data list |
| LooseAssembler.FirstPass | assembler/assemble.c:110-119 | the first loop builds `Pass1`'s two lists |
| LooseAssembler.SecondPass | assembler/assemble.c:123-132 | the second loop writes `Pass2`'s words |
| LooseAssembler.Assemble | assembler/assemble.c:110-134 | `main` produces `Assembly`'s words |

## Left out

- File I/O is not modelled: argument checks, `fopen`, `fgets`, `fprintf`, `rewind`, the printed traces (`printState`, `printInstruction`, `__checkSymbols`), the error message texts and `exit`. Outcomes and error values stand in for them.
- Loading the machine-code file is not modelled. `Sequential.Machine.constructor` takes the program's words, at most NUMMEMORY of them, where the C loop would overrun the array. `Pipeline.Run` takes the prototype state.
- `readAndParse` is not modelled. Lines arrive split into fields, so "line too long" (MAXLINELENGTH) is not modelled either.
- Numeral.LeadingInt: `sscanf("%d")`, `atoi` and `atol` skip leading whitespace, which tokens never have. For a numeral beyond the range of `long` their results are undefined; the model reads the exact value, and `Atoi` keeps it modulo 2^32.
- `freeSymbols` and `__freeSymbols` are not modelled: they only release memory.
- `strncpy` into fixed name buffers is not modelled. Strict labels are at most six characters by then, and loose tokens are shorter than a line.
- `__readReg`'s bound is modelled corrected (see Findings), since no instruction field can name register 8.
- LooseAssembler.Translate: for a name that is not a mnemonic, including a blank line, the C `inst` is uninitialised; the model gives `None` and says nothing about that word.
- Pipeline.AluResult: jalr is unimplemented in the pipelined simulator, so it falls to the default case like `noop`, as written.
- Pipeline.RunSpec: the C loop has no bound; the model stops after a given number of cycles with `Running`.
- Sequential.RunSpec: likewise after a given number of instructions.
- `cycles`, `instCount` and a pc past 2^31 - 1 would overflow a C `int`. The counts are unbounded here, and the pc stays small wherever it is used.
- StrictAssembler.Pass1: files with 2^31 lines or more are excluded, because addresses are C `int`s.
- An end-state equivalence of the sequential and pipelined simulators is not modelled. The two differ in general: the pipelined one has no forwarding and reads stale registers on hazards, and it neither faults on register 0 nor bounds memory by `numMemory`.
- C bit-field and union layout is replaced by explicit shifts and masks in the accessors' bit order.

## Findings

| source | as written | input that shows it | evidently intended | confidence | as-written member | corrected member |
|---|---|---|---|---|---|---|
| project1/simulator/simulate.c:174 | `__readReg` rejects only `reg > NUMREGS` | register number 8 passes the bound and reads past `reg[7]` | `reg >= NUMREGS` | not executed; unreachable from decode, whose fields are 3 bits wide | Sequential.ReadRegAdmitsEight | Sequential.Machine.ReadReg |
