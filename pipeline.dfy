/**
  The five-stage pipelined LC-2K simulator (project2/simulator.c).

  Every cycle `run` copies the current state into `newState`, bumps the
  cycle count, and lets the stages IF, ID, EX, MEM and WB each read the
  OLD state and write their part of `newState`, which then becomes the
  current state. There is no forwarding and no stall: a hazard reads stale
  registers. A taken `beq` resolves in MEM, redirects the pc and turns the
  three younger instructions into noops.

  The old state, which no stage writes, is the value `Snapshot`; `newState`
  is the object `PipeState`, whose stage methods are checked against the
  pure stage functions, and `Step` composes those into one cycle.
*/
module Pipeline {
  import opened Wrappers
  import opened Isa

  datatype IFIDLatch = IFIDLatch(instr: Int32, pcPlus1: Int32)
  datatype IDEXLatch = IDEXLatch(instr: Int32, pcPlus1: Int32, readRegA: Int32, readRegB: Int32, offset: Int32)
  datatype EXMEMLatch = EXMEMLatch(instr: Int32, branchTarget: Int32, aluResult: Int32, readRegB: Int32)
  datatype MEMWBLatch = MEMWBLatch(instr: Int32, writeData: Int32)
  datatype WBENDLatch = WBENDLatch(instr: Int32, writeData: Int32)

  /** `stateType`; `cycles` is unbounded here. */
  datatype Snapshot = Snapshot(
    pc: Int32,
    instrMem: seq<Int32>,
    dataMem: seq<Int32>,
    reg: seq<Int32>,
    numMemory: int,
    IFID: IFIDLatch,
    IDEX: IDEXLatch,
    EXMEM: EXMEMLatch,
    MEMWB: MEMWBLatch,
    WBEND: WBENDLatch,
    cycles: nat)

  ghost predicate WellFormed(s: Snapshot)
  {
    |s.instrMem| == NUMMEMORY && |s.dataMem| == NUMMEMORY && |s.reg| == NUMREGS
  }

  /** ER_OUTOFBOUNDMEM with the offending address, the only fault of `run`. */
  datatype Fault = OutOfBoundMem(address: int)

  /** `__initState` on top of the zeroed `state` of `run`. */
  function InitState(proto: Snapshot): (s: Snapshot)
    requires WellFormed(proto)
    ensures WellFormed(s)
    ensures s.pc == 0 && s.cycles == 0
    ensures forall r :: 0 <= r < NUMREGS ==> s.reg[r] == 0
    ensures s.instrMem == proto.instrMem && s.dataMem == proto.dataMem && s.numMemory == proto.numMemory
    ensures s.IFID.instr == s.IDEX.instr == s.EXMEM.instr == s.WBEND.instr == NOOPINSTRUCTION
    ensures s.MEMWB == MEMWBLatch(0, 0)
  {
    Snapshot(0, proto.instrMem, proto.dataMem, seq(NUMREGS, _ => 0), proto.numMemory,
             IFIDLatch(NOOPINSTRUCTION, 0), IDEXLatch(NOOPINSTRUCTION, 0, 0, 0, 0),
             EXMEMLatch(NOOPINSTRUCTION, 0, 0, 0), MEMWBLatch(0, 0), WBENDLatch(NOOPINSTRUCTION, 0), 0)
  }

  // ------------------------------------------------------------------
  // The stages, as functions of the old state `s` and `newState` so far `n`

  /** IF: a pc outside memory is a fault; otherwise IFID gets the word at
      pc and pc + 1, and pc moves on to pc + 1, nothing else changing. */
  function FetchStage(s: Snapshot, n: Snapshot): (r: Result<Snapshot, Fault>)
    requires WellFormed(s)
    ensures r.Err? <==> !InMemory(s.pc)
    ensures r.Err? ==> r.error == OutOfBoundMem(s.pc)
    ensures r.Ok? ==> r.value.IFID == IFIDLatch(s.instrMem[s.pc], s.pc + 1) && r.value.pc == s.pc + 1
    ensures r.Ok? ==> r.value.(IFID := n.IFID, pc := n.pc) == n
  {
    if s.pc < 0 || s.pc >= NUMMEMORY then Err(OutOfBoundMem(s.pc))
    else Ok(n.(IFID := IFIDLatch(s.instrMem[s.pc], s.pc + 1), pc := s.pc + 1))
  }

  /** A source register operand: register 0 reads as 0, any other the old
      register file. */
  function ReadOperand(s: Snapshot, r: int): Int32
    requires WellFormed(s) && 0 <= r < NUMREGS
  {
    if r == 0 then 0 else s.reg[r]
  }

  /** ID: IDEX gets IFID's word and pc + 1, the two source registers of
      the old register file (register 0 as 0) and the sign-extended low 16
      bits; only IDEX changes. */
  function DecodeStage(s: Snapshot, n: Snapshot): (r: Snapshot)
    requires WellFormed(s)
    ensures r.(IDEX := n.IDEX) == n
    ensures r.IDEX.instr == s.IFID.instr && r.IDEX.pcPlus1 == s.IFID.pcPlus1
    ensures Field0(s.IFID.instr) == 0 ==> r.IDEX.readRegA == 0
    ensures Field0(s.IFID.instr) != 0 ==> r.IDEX.readRegA == s.reg[Field0(s.IFID.instr)]
    ensures Field1(s.IFID.instr) == 0 ==> r.IDEX.readRegB == 0
    ensures Field1(s.IFID.instr) != 0 ==> r.IDEX.readRegB == s.reg[Field1(s.IFID.instr)]
    ensures MININT16 <= r.IDEX.offset <= MAXINT16 && (r.IDEX.offset - s.IFID.instr) % TWO16 == 0
  {
    var instr := s.IFID.instr;
    n.(IDEX := IDEXLatch(instr, s.IFID.pcPlus1, ReadOperand(s, Field0(instr)),
                         ReadOperand(s, Field1(instr)), ConvertNum(Field2(instr))))
  }

  /** The ALU of EX; any opcode but add, nor, lw, sw and beq leaves the
      latch's previous result. */
  function AluResult(x: IDEXLatch, previous: Int32): (r: Int32)
    ensures Opcode(x.instr) == BEQ ==> (r == 0 <==> x.readRegA == x.readRegB)
    ensures !(0 <= Opcode(x.instr) < 5) ==> r == previous
  {
    var op := Opcode(x.instr);
    if op == ADD then Wrap(x.readRegA + x.readRegB)
    else if op == NOR then Nor(x.readRegA, x.readRegB)
    else if op == LW || op == SW then Wrap(x.readRegA + x.offset)
    else if op == BEQ then WrapZero(x.readRegA - x.readRegB); Wrap(x.readRegA - x.readRegB)
    else previous
  }

  /** The ALU wraps modulo 2^32, and nor is the complement of the bitwise or. */
  lemma AluSpec(x: IDEXLatch, previous: Int32)
    ensures var r := AluResult(x, previous); var op := Opcode(x.instr);
      && (op == ADD ==> (r - (x.readRegA + x.readRegB)) % TWO32 == 0)
      && (op == NOR ==> ToBits(r) == !(ToBits(x.readRegA) | ToBits(x.readRegB)))
      && (op == LW || op == SW ==> (r - (x.readRegA + x.offset)) % TWO32 == 0)
      && (op == BEQ ==> (r - (x.readRegA - x.readRegB)) % TWO32 == 0)
  {
    var op := Opcode(x.instr);
    if op == ADD {
      WrapSpec(x.readRegA + x.readRegB);
    } else if op == NOR {
      NorSpec(x.readRegA, x.readRegB);
    } else if op == LW || op == SW {
      WrapSpec(x.readRegA + x.offset);
    } else if op == BEQ {
      WrapSpec(x.readRegA - x.readRegB);
    }
  }

  /** EX: EXMEM gets IDEX's word and readRegB, the branch target
      pc + 1 + offset modulo 2^32 and the ALU result; only EXMEM changes. */
  function ExecuteStage(s: Snapshot, n: Snapshot): (r: Snapshot)
    ensures r.(EXMEM := n.EXMEM) == n
    ensures r.EXMEM.instr == s.IDEX.instr && r.EXMEM.readRegB == s.IDEX.readRegB
    ensures (r.EXMEM.branchTarget - (s.IDEX.pcPlus1 + s.IDEX.offset)) % TWO32 == 0
    ensures r.EXMEM.aluResult == AluResult(s.IDEX, n.EXMEM.aluResult)
  {
    WrapSpec(s.IDEX.pcPlus1 + s.IDEX.offset);
    var x := s.IDEX;
    n.(EXMEM := EXMEMLatch(x.instr, Wrap(x.pcPlus1 + x.offset), AluResult(x, n.EXMEM.aluResult), x.readRegB))
  }

  /** A `beq` in MEM whose operands were equal. */
  predicate BranchTaken(s: Snapshot)
  {
    Opcode(s.EXMEM.instr) == BEQ && s.EXMEM.aluResult == 0
  }

  /** The effect of MEM on `newState`. */
  function MemoryStage(s: Snapshot, n: Snapshot): (r: Result<Snapshot, Fault>)
    requires WellFormed(s) && WellFormed(n)
    ensures r.Err? <==> IsMemOp(s.EXMEM.instr) && !InMemory(s.EXMEM.aluResult)
    ensures r.Err? ==> r.error == OutOfBoundMem(s.EXMEM.aluResult)
    ensures r.Ok? ==> r.value.MEMWB.instr == s.EXMEM.instr
    ensures r.Ok? ==>
      r.value.(dataMem := n.dataMem, MEMWB := n.MEMWB, pc := n.pc, IFID := n.IFID, IDEX := n.IDEX,
               EXMEM := n.EXMEM) == n
    ensures r.Ok? && Opcode(s.EXMEM.instr) != SW ==> r.value.dataMem == n.dataMem
    ensures r.Ok? && !BranchTaken(s) ==>
      r.value.pc == n.pc && r.value.IFID == n.IFID && r.value.IDEX == n.IDEX && r.value.EXMEM == n.EXMEM
    ensures r.Ok? && BranchTaken(s) ==>
      && r.value.pc == s.EXMEM.branchTarget
      && r.value.IFID.instr == r.value.IDEX.instr == r.value.EXMEM.instr == NOOPINSTRUCTION
  {
    var instr := s.EXMEM.instr;
    var aluResult := s.EXMEM.aluResult;
    var n := n.(MEMWB := n.MEMWB.(instr := instr));
    var op := Opcode(instr);
    if op == ADD || op == NOR then
      Ok(n.(MEMWB := n.MEMWB.(writeData := aluResult)))
    else if op == LW then
      if aluResult < 0 || aluResult >= NUMMEMORY then Err(OutOfBoundMem(aluResult))
      else Ok(n.(MEMWB := n.MEMWB.(writeData := s.dataMem[aluResult])))
    else if op == SW then
      if aluResult < 0 || aluResult >= NUMMEMORY then Err(OutOfBoundMem(aluResult))
      else Ok(n.(dataMem := n.dataMem[aluResult := s.EXMEM.readRegB]))
    else if BranchTaken(s) then
      Ok(n.(pc := s.EXMEM.branchTarget,
            IFID := n.IFID.(instr := NOOPINSTRUCTION),
            IDEX := n.IDEX.(instr := NOOPINSTRUCTION),
            EXMEM := n.EXMEM.(instr := NOOPINSTRUCTION)))
    else Ok(n)
  }

  /** WB: WBEND copies MEMWB; add and nor write destReg, lw writes regB,
      and nothing else changes. */
  function WritebackStage(s: Snapshot, n: Snapshot): (r: Snapshot)
    requires WellFormed(n)
    ensures r.WBEND == WBENDLatch(s.MEMWB.instr, s.MEMWB.writeData)
    ensures r.(reg := n.reg, WBEND := n.WBEND) == n
    ensures |r.reg| == |n.reg|
    ensures Opcode(s.MEMWB.instr) !in {ADD, NOR, LW} ==> r.reg == n.reg
    ensures Opcode(s.MEMWB.instr) in {ADD, NOR} ==>
      forall i :: 0 <= i < |n.reg| ==>
        r.reg[i] == if i == DestReg(s.MEMWB.instr) then s.MEMWB.writeData else n.reg[i]
    ensures Opcode(s.MEMWB.instr) == LW ==>
      forall i :: 0 <= i < |n.reg| ==>
        r.reg[i] == if i == Field1(s.MEMWB.instr) then s.MEMWB.writeData else n.reg[i]
  {
    var instr := s.MEMWB.instr;
    var writeData := s.MEMWB.writeData;
    var n := n.(WBEND := WBENDLatch(instr, writeData));
    var op := Opcode(instr);
    if op == ADD || op == NOR then n.(reg := n.reg[DestReg(instr) := writeData])
    else if op == LW then n.(reg := n.reg[Field1(instr) := writeData])
    else n
  }

  /** Stage `stage` of the cycle: 0 IF, 1 ID, 2 EX, 3 MEM, 4 WB. */
  function ApplyStage(stage: nat, s: Snapshot, n: Snapshot): (r: Result<Snapshot, Fault>)
    requires WellFormed(s) && WellFormed(n) && stage < 5
    ensures r.Ok? ==> WellFormed(r.value)
  {
    if stage == 0 then FetchStage(s, n)
    else if stage == 1 then Ok(DecodeStage(s, n))
    else if stage == 2 then Ok(ExecuteStage(s, n))
    else if stage == 3 then MemoryStage(s, n)
    else Ok(WritebackStage(s, n))
  }

  /** The stages from `stage` on, in the order `run` calls them. */
  function Stages(stage: nat, s: Snapshot, n: Snapshot): (r: Result<Snapshot, Fault>)
    requires WellFormed(s) && WellFormed(n) && stage <= 5
    ensures r.Ok? ==> WellFormed(r.value)
    decreases 5 - stage
  {
    if stage == 5 then Ok(n)
    else
      var n :- ApplyStage(stage, s, n);
      Stages(stage + 1, s, n)
  }

  /** One cycle of `run`'s loop, from `newState = state` to `state = newState`. */
  function Step(s: Snapshot): (r: Result<Snapshot, Fault>)
    requires WellFormed(s)
    ensures r.Ok? ==> WellFormed(r.value)
  {
    Stages(0, s, s.(cycles := s.cycles + 1))
  }

  /** How `run` ends: `halt` reached MEMWB, a fault, or still running after
      `fuel` cycles (the C loop has no bound). */
  datatype Outcome =
    | Halted(final: Snapshot)
    | Faulted(fault: Fault, before: Snapshot)
    | Running(current: Snapshot)

  /** The loop of `run`: the halt check comes before each cycle. */
  function RunSpec(s: Snapshot, fuel: nat): (r: Outcome)
    requires WellFormed(s)
    ensures Opcode(s.MEMWB.instr) == HALT ==> r == Halted(s)
    ensures r.Halted? ==> WellFormed(r.final) && Opcode(r.final.MEMWB.instr) == HALT
    ensures r.Running? ==> WellFormed(r.current)
    decreases fuel, 2
  {
    if Opcode(s.MEMWB.instr) == HALT then Halted(s) else RunBounded(s, fuel)
  }

  /** The cut-off that stands in for the loop running forever. */
  function RunBounded(s: Snapshot, fuel: nat): (r: Outcome)
    requires WellFormed(s)
    ensures r.Halted? ==> WellFormed(r.final) && Opcode(r.final.MEMWB.instr) == HALT
    ensures r.Running? ==> WellFormed(r.current)
    decreases fuel, 1
  {
    if fuel == 0 then Running(s) else RunCycle(s, fuel)
  }

  /** One cycle, then the next halt check. */
  function RunCycle(s: Snapshot, fuel: nat): (r: Outcome)
    requires WellFormed(s) && fuel > 0
    ensures r.Halted? ==> WellFormed(r.final) && Opcode(r.final.MEMWB.instr) == HALT
    ensures r.Running? ==> WellFormed(r.current)
    decreases fuel, 0
  {
    match Step(s)
    case Err(f) => Faulted(f, s)
    case Ok(t) => RunSpec(t, fuel - 1)
  }

  /** `Step` is the five stage functions in order. */
  lemma StepStages(s: Snapshot)
    requires WellFormed(s)
    ensures
      var n0 := s.(cycles := s.cycles + 1);
      Step(s) ==
        if FetchStage(s, n0).Err? then Err(FetchStage(s, n0).error)
        else
          var n3 := ExecuteStage(s, DecodeStage(s, FetchStage(s, n0).value));
          if MemoryStage(s, n3).Err? then Err(MemoryStage(s, n3).error)
          else Ok(WritebackStage(s, MemoryStage(s, n3).value))
  {
    var n0 := s.(cycles := s.cycles + 1);
    if FetchStage(s, n0).Ok? {
      var n1 := FetchStage(s, n0).value;
      var n2 := DecodeStage(s, n1);
      var n3 := ExecuteStage(s, n2);
      assert Stages(1, s, n1) == Stages(2, s, n2);
      assert Stages(2, s, n2) == Stages(3, s, n3);
      if MemoryStage(s, n3).Ok? {
        var n4 := MemoryStage(s, n3).value;
        assert Stages(3, s, n3) == Stages(4, s, n4);
        assert Stages(4, s, n4) == Ok(WritebackStage(s, n4));
      }
    }
  }

  /** A cycle that neither halts nor faults leaves the rest of the run to
      the next state. */
  lemma RunSpecStep(s: Snapshot, fuel: nat)
    requires WellFormed(s) && Opcode(s.MEMWB.instr) != HALT && fuel > 0 && Step(s).Ok?
    ensures RunSpec(s, fuel) == RunSpec(Step(s).value, fuel - 1)
  {
    assert RunSpec(s, fuel) == RunBounded(s, fuel) == RunCycle(s, fuel);
  }

  // ------------------------------------------------------------------
  // One cycle, component by component

  predicate InMemory(a: int)
  {
    0 <= a < NUMMEMORY
  }

  /** An instruction that addresses data memory in MEM. */
  predicate IsMemOp(instr: Int32)
  {
    Opcode(instr) == LW || Opcode(instr) == SW
  }

  /** A cycle faults exactly when fetch's pc or an lw/sw address in MEM lies
      outside memory; fetch is checked first. */
  lemma StepFault(s: Snapshot)
    requires WellFormed(s)
    ensures Step(s).Err? <==> !InMemory(s.pc) || (IsMemOp(s.EXMEM.instr) && !InMemory(s.EXMEM.aluResult))
    ensures Step(s).Err? ==>
      Step(s).error == OutOfBoundMem(if !InMemory(s.pc) then s.pc else s.EXMEM.aluResult)
  {
    StepStages(s);
  }

  /** IF, with the override of a taken `beq`: the next pc and IFID. The
      instruction memory, `numMemory` and nothing but `cycles` of the
      bookkeeping change. */
  lemma StepFetch(s: Snapshot)
    requires WellFormed(s) && Step(s).Ok?
    ensures var t := Step(s).value;
      && t.cycles == s.cycles + 1
      && t.instrMem == s.instrMem && t.numMemory == s.numMemory
      && t.IFID.pcPlus1 == s.pc + 1
      && (!BranchTaken(s) ==> t.pc == s.pc + 1 && t.IFID.instr == s.instrMem[s.pc])
      && (BranchTaken(s) ==> t.pc == s.EXMEM.branchTarget && t.IFID.instr == NOOPINSTRUCTION)
  {
    StepStages(s);
  }

  /** ID: the operands come from the OLD register file, register 0 reads as
      0, and the offset is sign-extended. */
  lemma StepDecode(s: Snapshot)
    requires WellFormed(s) && Step(s).Ok?
    ensures var t := Step(s).value; var instr := s.IFID.instr;
      && t.IDEX.instr == (if BranchTaken(s) then NOOPINSTRUCTION else instr)
      && t.IDEX.pcPlus1 == s.IFID.pcPlus1
      && t.IDEX.readRegA == (if Field0(instr) == 0 then 0 else s.reg[Field0(instr)])
      && t.IDEX.readRegB == (if Field1(instr) == 0 then 0 else s.reg[Field1(instr)])
      && t.IDEX.offset == ConvertNum(Field2(instr))
  {
    StepStages(s);
  }

  /** EX: the branch target for every opcode, the ALU, and B passed on. */
  lemma StepExecute(s: Snapshot)
    requires WellFormed(s) && Step(s).Ok?
    ensures var t := Step(s).value;
      && t.EXMEM.instr == (if BranchTaken(s) then NOOPINSTRUCTION else s.IDEX.instr)
      && t.EXMEM.branchTarget == Wrap(s.IDEX.pcPlus1 + s.IDEX.offset)
      && t.EXMEM.aluResult == AluResult(s.IDEX, s.EXMEM.aluResult)
      && t.EXMEM.readRegB == s.IDEX.readRegB
  {
    StepStages(s);
  }

  /** MEM: the data written back, and only `sw` changes data memory. */
  lemma StepMemory(s: Snapshot)
    requires WellFormed(s) && Step(s).Ok?
    ensures var t := Step(s).value; var op := Opcode(s.EXMEM.instr); var a := s.EXMEM.aluResult;
      && t.MEMWB.instr == s.EXMEM.instr
      && t.MEMWB.writeData ==
           (if op == ADD || op == NOR then a
            else if op == LW then s.dataMem[a]
            else s.MEMWB.writeData)
      && t.dataMem == (if op == SW then s.dataMem[a := s.EXMEM.readRegB] else s.dataMem)
  {
    StepStages(s);
  }

  /** WB: WBEND copies MEMWB; add and nor write destReg, lw writes regB,
      and no other opcode changes a register. */
  lemma StepWriteback(s: Snapshot)
    requires WellFormed(s) && Step(s).Ok?
    ensures var t := Step(s).value; var instr := s.MEMWB.instr; var op := Opcode(instr);
      && t.WBEND == WBENDLatch(instr, s.MEMWB.writeData)
      && t.reg ==
           (if op == ADD || op == NOR then s.reg[DestReg(instr) := s.MEMWB.writeData]
            else if op == LW then s.reg[Field1(instr) := s.MEMWB.writeData]
            else s.reg)
  {
    StepStages(s);
  }

  /** Without a fault, a memory access or a taken branch, every instruction
      moves one latch down the pipeline, the next one is fetched, and
      neither data memory nor, unless WB retires add, nor or lw, the
      registers change. */
  lemma StepAdvances(s: Snapshot)
    requires WellFormed(s) && InMemory(s.pc)
    requires !IsMemOp(s.EXMEM.instr) && Opcode(s.EXMEM.instr) != BEQ
    ensures Step(s).Ok?
    ensures var t := Step(s).value;
      && t.pc == s.pc + 1 && t.cycles == s.cycles + 1
      && t.IFID.instr == s.instrMem[s.pc]
      && t.IDEX.instr == s.IFID.instr
      && t.EXMEM.instr == s.IDEX.instr
      && t.MEMWB.instr == s.EXMEM.instr
      && t.WBEND.instr == s.MEMWB.instr
      && t.dataMem == s.dataMem
      && (Opcode(s.MEMWB.instr) !in {ADD, NOR, LW} ==> t.reg == s.reg)
  {
    StepFault(s);
    StepFetch(s);
    StepDecode(s);
    StepExecute(s);
    StepMemory(s);
    StepWriteback(s);
  }

  /** The cycle from `s` raises a fault. */
  predicate CycleFaults(s: Snapshot)
  {
    !InMemory(s.pc) || (IsMemOp(s.EXMEM.instr) && !InMemory(s.EXMEM.aluResult))
  }

  /** `t` may follow `s`: one more cycle, the same instruction memory. */
  ghost predicate Follows(s: Snapshot, t: Snapshot)
  {
    WellFormed(t) && t.cycles == s.cycles + 1 && t.instrMem == s.instrMem && t.numMemory == s.numMemory
  }

  /** The cycle after a failed halt check either faults, reporting the pc
      or the lw/sw address, or hands the rest of the run to a state that
      follows. */
  lemma CycleOutcome(s: Snapshot, fuel: nat)
    requires WellFormed(s) && fuel > 0
    ensures CycleFaults(s) ==>
      RunCycle(s, fuel) == Faulted(OutOfBoundMem(if !InMemory(s.pc) then s.pc else s.EXMEM.aluResult), s)
    ensures !CycleFaults(s) ==> exists t :: Follows(s, t) && RunCycle(s, fuel) == RunSpec(t, fuel - 1)
  {
    StepFault(s);
    if !CycleFaults(s) {
      StepFetch(s);
      assert Follows(s, Step(s).value);
    }
  }

  /** How a run ends: `halt` in MEMWB (at once exactly when the start state
      has it), a faulting cycle, or `fuel` cycles done. Each cycle adds one
      to `cycles`, and no cycle writes the instruction memory. */
  lemma {:induction false} RunSpecEnds(s: Snapshot, fuel: nat)
    requires WellFormed(s)
    ensures match RunSpec(s, fuel)
      case Halted(f) =>
        && WellFormed(f) && Opcode(f.MEMWB.instr) == HALT
        && s.cycles <= f.cycles <= s.cycles + fuel
        && (f.cycles == s.cycles <==> Opcode(s.MEMWB.instr) == HALT)
        && f.instrMem == s.instrMem && f.numMemory == s.numMemory
      case Faulted(e, b) =>
        && WellFormed(b) && Opcode(b.MEMWB.instr) != HALT && CycleFaults(b)
        && e == OutOfBoundMem(if !InMemory(b.pc) then b.pc else b.EXMEM.aluResult)
        && s.cycles <= b.cycles < s.cycles + fuel
        && b.instrMem == s.instrMem && b.numMemory == s.numMemory
      case Running(c) =>
        && WellFormed(c) && Opcode(c.MEMWB.instr) != HALT
        && c.cycles == s.cycles + fuel
        && c.instrMem == s.instrMem && c.numMemory == s.numMemory
    decreases fuel
  {
    if Opcode(s.MEMWB.instr) != HALT && fuel > 0 {
      assert RunSpec(s, fuel) == RunCycle(s, fuel);
      CycleOutcome(s, fuel);
      if !CycleFaults(s) {
        var t :| Follows(s, t) && RunCycle(s, fuel) == RunSpec(t, fuel - 1);
        RunSpecEnds(t, fuel - 1);
      }
    }
  }

  /** The instruction in the latch `k` stages before WB: 0 MEMWB, 1 EXMEM,
      2 IDEX, 3 IFID. */
  function LatchInstr(s: Snapshot, k: nat): Int32
    requires k < 4
  {
    if k == 0 then s.MEMWB.instr
    else if k == 1 then s.EXMEM.instr
    else if k == 2 then s.IDEX.instr
    else s.IFID.instr
  }

  /** An instruction that, passing MEM and WB, touches neither memory nor
      registers nor the pc, and is not `halt`: noop, the unimplemented jalr,
      or a data word. */
  predicate Quiet(instr: Int32)
  {
    var op := Opcode(instr);
    !(0 <= op < 5) && op != HALT
  }

  /** `t` is `s` one cycle on with every instruction one latch further
      down, the next one fetched, and registers and data memory unchanged. */
  ghost predicate Shifted(s: Snapshot, t: Snapshot)
    requires WellFormed(s) && InMemory(s.pc)
  {
    && WellFormed(t) && t.pc == s.pc + 1 && t.cycles == s.cycles + 1
    && t.IFID.instr == s.instrMem[s.pc] && t.IDEX.instr == s.IFID.instr
    && t.EXMEM.instr == s.IDEX.instr && t.MEMWB.instr == s.EXMEM.instr
    && t.reg == s.reg && t.dataMem == s.dataMem
  }

  /** A cycle whose MEM and WB instructions are quiet only shifts the pipeline. */
  lemma QuietCycle(s: Snapshot, fuel: nat)
    requires WellFormed(s) && fuel > 0 && InMemory(s.pc)
    requires Quiet(s.MEMWB.instr) && !IsMemOp(s.EXMEM.instr) && Opcode(s.EXMEM.instr) != BEQ
    ensures exists t :: Shifted(s, t) && RunSpec(s, fuel) == RunSpec(t, fuel - 1)
  {
    StepAdvances(s);
    RunSpecStep(s, fuel);
    assert Shifted(s, Step(s).value);
  }

  /** A `halt` `k` latches before MEMWB with only quiet instructions ahead
      of it stops the run after exactly `k` more cycles; the instructions
      fetched behind it never reach MEM, so registers and data memory stay. */
  lemma {:induction false} HaltDrainsFrom(s: Snapshot, fuel: nat, k: nat)
    requires WellFormed(s) && k < 4 && k <= fuel
    requires Opcode(LatchInstr(s, k)) == HALT
    requires forall j :: 0 <= j < k ==> Quiet(LatchInstr(s, j))
    requires 0 <= s.pc && s.pc + k <= NUMMEMORY
    ensures RunSpec(s, fuel).Halted?
    ensures var f := RunSpec(s, fuel).final;
      f.cycles == s.cycles + k && f.reg == s.reg && f.dataMem == s.dataMem
    decreases k
  {
    if k > 0 {
      assert Quiet(LatchInstr(s, 0));
      if k > 1 {
        assert Quiet(LatchInstr(s, 1));
      }
      QuietCycle(s, fuel);
      var t :| Shifted(s, t) && RunSpec(s, fuel) == RunSpec(t, fuel - 1);
      forall j | 0 <= j < k - 1
        ensures Quiet(LatchInstr(t, j))
      {
        assert LatchInstr(t, j) == LatchInstr(s, j + 1);
      }
      assert LatchInstr(t, k - 1) == LatchInstr(s, k);
      HaltDrainsFrom(t, fuel - 1, k - 1);
    }
  }

  /** The first cycle only shifts the pipeline too: the zeroed MEMWB holds
      `add 0 0 0`, whose write of 0 to register 0 changes nothing. */
  lemma FirstCycle(proto: Snapshot, fuel: nat)
    requires WellFormed(proto) && fuel > 0
    ensures exists t :: Shifted(InitState(proto), t) && RunSpec(InitState(proto), fuel) == RunSpec(t, fuel - 1)
  {
    var s0 := InitState(proto);
    assert Opcode(NOOPINSTRUCTION) == NOOP && Opcode(0) == ADD && DestReg(0) == 0;
    StepAdvances(s0);
    StepWriteback(s0);
    RunSpecStep(s0, fuel);
    assert Shifted(s0, Step(s0).value);
  }

  /** A program that starts with `halt` stops after four cycles, with the
      registers still zero and the data memory as loaded. */
  lemma HaltDrains(proto: Snapshot, fuel: nat)
    requires WellFormed(proto) && Opcode(proto.instrMem[0]) == HALT && fuel >= 4
    ensures RunSpec(InitState(proto), fuel).Halted?
    ensures var f := RunSpec(InitState(proto), fuel).final;
      f.cycles == 4 && f.reg == InitState(proto).reg && f.dataMem == proto.dataMem
  {
    var s0 := InitState(proto);
    FirstCycle(proto, fuel);
    var s1 :| Shifted(s0, s1) && RunSpec(s0, fuel) == RunSpec(s1, fuel - 1);
    assert Opcode(NOOPINSTRUCTION) == NOOP;
    assert LatchInstr(s1, 3) == proto.instrMem[0];
    forall j | 0 <= j < 3
      ensures Quiet(LatchInstr(s1, j))
    {
    }
    HaltDrainsFrom(s1, fuel - 1, 3);
  }

  // ------------------------------------------------------------------
  // newState

  class PipeState {
    var pc: Int32
    const instrMem: array<Int32>
    const dataMem: array<Int32>
    const reg: array<Int32>
    var numMemory: int
    var IFID: IFIDLatch
    var IDEX: IDEXLatch
    var EXMEM: EXMEMLatch
    var MEMWB: MEMWBLatch
    var WBEND: WBENDLatch
    var cycles: nat

    ghost predicate Valid()
      reads this
    {
      && instrMem.Length == NUMMEMORY && dataMem.Length == NUMMEMORY && reg.Length == NUMREGS
      && instrMem != dataMem && reg != instrMem && reg != dataMem
    }

    function Abs(): (s: Snapshot)
      reads this, instrMem, dataMem, reg
    {
      Snapshot(pc, instrMem[..], dataMem[..], reg[..], numMemory, IFID, IDEX, EXMEM, MEMWB, WBEND, cycles)
    }

    /** `stateType newState = {0,}`. */
    constructor ()
      ensures Valid() && fresh(instrMem) && fresh(dataMem) && fresh(reg)
    {
      pc := 0;
      instrMem := new Int32[NUMMEMORY](_ => 0);
      dataMem := new Int32[NUMMEMORY](_ => 0);
      reg := new Int32[NUMREGS](_ => 0);
      numMemory := 0;
      IFID := IFIDLatch(0, 0);
      IDEX := IDEXLatch(0, 0, 0, 0, 0);
      EXMEM := EXMEMLatch(0, 0, 0, 0);
      MEMWB := MEMWBLatch(0, 0);
      WBEND := WBENDLatch(0, 0);
      cycles := 0;
    }

    /** `newState = state`. */
    method Load(s: Snapshot)
      requires Valid() && WellFormed(s)
      modifies this, instrMem, dataMem, reg
      ensures Valid() && Abs() == s
    {
      forall i | 0 <= i < NUMMEMORY {
        instrMem[i] := s.instrMem[i];
      }
      forall i | 0 <= i < NUMMEMORY {
        dataMem[i] := s.dataMem[i];
      }
      forall i | 0 <= i < NUMREGS {
        reg[i] := s.reg[i];
      }
      pc, numMemory, cycles := s.pc, s.numMemory, s.cycles;
      IFID, IDEX, EXMEM, MEMWB, WBEND := s.IFID, s.IDEX, s.EXMEM, s.MEMWB, s.WBEND;
      assert instrMem[..] == s.instrMem && dataMem[..] == s.dataMem && reg[..] == s.reg;
    }

    /** `fetch`. */
    method Fetch(s: Snapshot) returns (fault: Option<Fault>)
      requires Valid() && WellFormed(s)
      modifies this
      ensures Valid()
      ensures FetchStage(s, old(Abs())).Err? ==> fault == Some(FetchStage(s, old(Abs())).error)
      ensures FetchStage(s, old(Abs())).Ok? ==> fault.None? && Abs() == FetchStage(s, old(Abs())).value
    {
      if s.pc < 0 || s.pc >= NUMMEMORY {
        return Some(OutOfBoundMem(s.pc));
      }
      IFID := IFID.(instr := s.instrMem[s.pc]);
      IFID := IFID.(pcPlus1 := s.pc + 1);
      pc := s.pc + 1;
      return None;
    }

    /** `decode`. */
    method Decode(s: Snapshot)
      requires Valid() && WellFormed(s)
      modifies this
      ensures Valid() && Abs() == DecodeStage(s, old(Abs()))
    {
      var instr := s.IFID.instr;
      var regA := Field0(instr);
      var regB := Field1(instr);
      IDEX := IDEX.(pcPlus1 := s.IFID.pcPlus1);
      IDEX := IDEX.(instr := instr);
      IDEX := IDEX.(readRegA := if regA == 0 then 0 else s.reg[Field0(instr)]);
      IDEX := IDEX.(readRegB := if regB == 0 then 0 else s.reg[Field1(instr)]);
      IDEX := IDEX.(offset := ConvertNum(Field2(instr)));
    }

    /** `execute`. */
    method Execute(s: Snapshot)
      requires Valid() && WellFormed(s)
      modifies this
      ensures Valid() && Abs() == ExecuteStage(s, old(Abs()))
    {
      var instr := s.IDEX.instr;
      EXMEM := EXMEM.(instr := instr);
      EXMEM := EXMEM.(branchTarget := Wrap(s.IDEX.pcPlus1 + s.IDEX.offset));
      EXMEM := EXMEM.(readRegB := s.IDEX.readRegB);
      var op := Opcode(instr);
      if op == ADD {
        EXMEM := EXMEM.(aluResult := Wrap(s.IDEX.readRegA + s.IDEX.readRegB));
      } else if op == NOR {
        EXMEM := EXMEM.(aluResult := Nor(s.IDEX.readRegA, s.IDEX.readRegB));
      } else if op == LW || op == SW {
        EXMEM := EXMEM.(aluResult := Wrap(s.IDEX.readRegA + s.IDEX.offset));
      } else if op == BEQ {
        EXMEM := EXMEM.(aluResult := Wrap(s.IDEX.readRegA - s.IDEX.readRegB));
      }
    }

    /** `memory`. */
    method Memory(s: Snapshot) returns (fault: Option<Fault>)
      requires Valid() && WellFormed(s)
      modifies this, dataMem
      ensures Valid()
      ensures MemoryStage(s, old(Abs())).Err? ==> fault == Some(MemoryStage(s, old(Abs())).error)
      ensures MemoryStage(s, old(Abs())).Ok? ==> fault.None? && Abs() == MemoryStage(s, old(Abs())).value
    {
      var instr := s.EXMEM.instr;
      var aluResult := s.EXMEM.aluResult;
      MEMWB := MEMWB.(instr := instr);
      var op := Opcode(instr);
      if op == ADD || op == NOR {
        MEMWB := MEMWB.(writeData := aluResult);
      } else if op == LW {
        if aluResult < 0 || aluResult >= NUMMEMORY {
          return Some(OutOfBoundMem(aluResult));
        }
        MEMWB := MEMWB.(writeData := s.dataMem[aluResult]);
      } else if op == SW {
        if aluResult < 0 || aluResult >= NUMMEMORY {
          return Some(OutOfBoundMem(aluResult));
        }
        dataMem[aluResult] := s.EXMEM.readRegB;
      } else if op == BEQ {
        if s.EXMEM.aluResult == 0 {
          pc := s.EXMEM.branchTarget;
          IFID := IFID.(instr := NOOPINSTRUCTION);
          IDEX := IDEX.(instr := NOOPINSTRUCTION);
          EXMEM := EXMEM.(instr := NOOPINSTRUCTION);
        }
      }
      return None;
    }

    /** `writeback`. */
    method Writeback(s: Snapshot)
      requires Valid() && WellFormed(s)
      modifies this, reg
      ensures Valid() && Abs() == WritebackStage(s, old(Abs()))
    {
      var instr := s.MEMWB.instr;
      var writeData := s.MEMWB.writeData;
      WBEND := WBENDLatch(instr, writeData);
      var op := Opcode(instr);
      if op == ADD || op == NOR {
        reg[DestReg(instr)] := writeData;
      } else if op == LW {
        reg[Field1(instr)] := writeData;
      }
    }

    /** The body of `run`'s loop after the halt check: `newState = state`,
        `newState.cycles++`, the five stages in order. */
    method Cycle(s: Snapshot) returns (fault: Option<Fault>)
      requires Valid() && WellFormed(s)
      modifies this, instrMem, dataMem, reg
      ensures Valid()
      ensures Step(s).Err? ==> fault == Some(Step(s).error)
      ensures Step(s).Ok? ==> fault.None? && Abs() == Step(s).value
    {
      Load(s);
      cycles := cycles + 1;
      ghost var n := s.(cycles := s.cycles + 1);
      assert Abs() == n;
      fault := Fetch(s);
      if fault.Some? {
        return;
      }
      n := FetchStage(s, n).value;
      Decode(s);
      n := DecodeStage(s, n);
      Execute(s);
      n := ExecuteStage(s, n);
      fault := Memory(s);
      if fault.Some? {
        return;
      }
      n := MemoryStage(s, n).value;
      Writeback(s);
      n := WritebackStage(s, n);
      StepStages(s);
    }
  }

  /** One pass of `run`'s loop: stops with the outcome, or advances `state`
      by one cycle through `newState`. */
  method RunOnce(state: Snapshot, fuel: nat, newState: PipeState) returns (done: bool, r: Outcome, next: Snapshot)
    requires WellFormed(state) && newState.Valid()
    modifies newState, newState.instrMem, newState.dataMem, newState.reg
    ensures newState.Valid()
    ensures done ==> r == RunSpec(state, fuel)
    ensures !done ==> fuel > 0 && WellFormed(next) && RunSpec(next, fuel - 1) == RunSpec(state, fuel)
  {
    next := state;
    // check for halt
    if Opcode(state.MEMWB.instr) == HALT {
      return true, Halted(state), next;
    }
    if fuel == 0 {
      return true, Running(state), next;
    }
    var fault := newState.Cycle(state);
    assert RunSpec(state, fuel) == RunCycle(state, fuel);
    if fault.Some? {
      return true, Faulted(fault.value, state), next;
    }
    RunSpecStep(state, fuel);
    next := newState.Abs();
    done, r := false, Running(state);
  }

  /** The loop of `run` from `start`, cut off after `maxCycles` cycles;
      `state = newState` commits each cycle. */
  method RunFrom(start: Snapshot, maxCycles: nat) returns (r: Outcome)
    requires WellFormed(start)
    ensures r == RunSpec(start, maxCycles)
  {
    var state := start;
    var newState := new PipeState();
    var fuel := maxCycles;
    while true
      invariant WellFormed(state) && newState.Valid()
      invariant fresh(newState.instrMem) && fresh(newState.dataMem) && fresh(newState.reg)
      invariant RunSpec(state, fuel) == RunSpec(start, maxCycles)
      decreases fuel
    {
      var done;
      done, r, state := RunOnce(state, fuel, newState);
      if done {
        return;
      }
      fuel := fuel - 1;
    }
  }

  /** `run`: `__initState` from the prototype, then the loop. */
  method Run(proto: Snapshot, maxCycles: nat) returns (r: Outcome)
    requires WellFormed(proto)
    ensures r == RunSpec(InitState(proto), maxCycles)
  {
    var state := InitState(proto);
    r := RunFrom(state, maxCycles);
  }
}
