/**
  The sequential LC-2K simulator (project1/simulator/simulate.c): each
  iteration of `run` takes one instruction through fetch, decode, execute,
  memory and writeback, on a single memory that holds the program and its
  data alike.

  Registers and memory hold C `int`s, while the stages compute on `word_t`
  (unsigned 32 bits): sums wrap modulo 2^32, and an address is compared
  unsigned against `numMemory`, so a negative address is out of bounds too.
  Writing register 0 and touching a word beyond the loaded ones are fatal.

  `Machine` is `stateType` with its stage methods; `Exec` is an independent,
  instruction-at-a-time reference semantics, and `Machine.Step` (the body of
  `run`'s loop) is proved to agree with it.
*/
module Sequential {
  import opened Wrappers
  import opened Isa

  /** The fatal errors `run` can reach, with the value `raiseError` reports.
      ER_UNRECOGNIZE is not among them: decode always finds the opcode. */
  datatype SimError =
    | OutOfBoundMem(address: Int32)
    | OutOfBoundReg(reg: int)
    | WriteReg0(pc: Int32)

  /** A register number taken from a 3-bit field. */
  type RegIndex = r: int | 0 <= r < NUMREGS

  /** `cunit`: what decode tells the later stages about the instruction. */
  datatype ControlUnit = ControlUnit(opcode: int, format: Format)

  /** The out-structs the stages hand on. `run` keeps one of each across
      iterations, and a stage leaves the fields it does not set as they were. */
  datatype FetchData = FetchData(inst: Int32)
  datatype DecodeData = DecodeData(rdataA: Int32, rdataB: Int32, offset: Int32, destReg: RegIndex)
  datatype ExecuteData = ExecuteData(address: Int32, data: Int32, destReg: RegIndex)
  datatype MemoryData = MemoryData(data: Int32, destReg: RegIndex)
  datatype Buffers = Buffers(fd: FetchData, dd: DecodeData, ed: ExecuteData, md: MemoryData)

  /** `fd`, `dd`, `ed` and `md` as `run` zeroes them. */
  const ZeroBuffers := Buffers(FetchData(0), DecodeData(0, 0, 0, 0), ExecuteData(0, 0, 0), MemoryData(0, 0))

  /** Decode's verdict: `halt` stops the loop, anything else goes on. */
  datatype Decoded = Stop | Go(out: DecodeData)

  // ------------------------------------------------------------------
  // Reference semantics

  /** The part of `stateType` that outlives an instruction. */
  datatype State = State(pc: Int32, mem: seq<Int32>, reg: seq<Int32>, numMemory: int)

  ghost predicate WellFormed(st: State)
  {
    |st.mem| == NUMMEMORY && |st.reg| == NUMREGS && 0 <= st.numMemory <= NUMMEMORY
  }

  /** `addr < numMemory` compared as `word_t`. */
  predicate InBounds(st: State, addr: Int32)
  {
    Unsigned(addr) < st.numMemory
  }

  /** An unsigned bound check admits exactly the addresses from 0 below the bound. */
  lemma InBoundsRange(st: State, addr: Int32)
    requires WellFormed(st)
    ensures InBounds(st, addr) <==> 0 <= addr < st.numMemory
  {
  }

  datatype Effect = Halt | Next(after: State)

  /** One instruction: the word at pc, then its effect on registers, memory
      and pc, or the fatal error it raises. */
  function Exec(st: State): (r: Result<Effect, SimError>)
    requires WellFormed(st)
    ensures r.Ok? ==> 0 <= st.pc < st.numMemory
    ensures r.Ok? && r.value.Next? ==> WellFormed(r.value.after)
  {
    if !InBounds(st, st.pc) then Err(OutOfBoundMem(st.pc))
    else
      var w := st.mem[st.pc];
      var pc1 := st.pc + 1;
      var op := OpBits(w);
      var a := Field0(w);
      var b := Field1(w);
      var offset := ConvertNum(Field2(w));
      if op == ADD || op == NOR then
        var d := DestReg(w);
        if d == 0 then Err(WriteReg0(pc1))
        else
          var v := if op == ADD then Wrap(st.reg[a] as int + st.reg[b]) else Nor(st.reg[a], st.reg[b]);
          Ok(Next(st.(pc := pc1, reg := st.reg[d := v])))
      else if op == LW then
        var addr := Wrap(st.reg[a] + offset);
        if !InBounds(st, addr) then Err(OutOfBoundMem(addr))
        else if b == 0 then Err(WriteReg0(pc1))
        else Ok(Next(st.(pc := pc1, reg := st.reg[b := st.mem[addr]])))
      else if op == SW then
        var addr := Wrap(st.reg[a] + offset);
        if !InBounds(st, addr) then Err(OutOfBoundMem(addr))
        else Ok(Next(st.(pc := pc1, mem := st.mem[addr := st.reg[b]])))
      else if op == BEQ then
        Ok(Next(st.(pc := if st.reg[a] == st.reg[b] then pc1 + offset else pc1)))
      else if op == JALR then
        if b == 0 then Err(WriteReg0(pc1))
        else
          var reg := st.reg[b := pc1];
          Ok(Next(st.(pc := reg[a], reg := reg)))
      else if op == HALT then Ok(Halt)
      else Ok(Next(st.(pc := pc1)))
  }

  /** How `run` ends: `halt` (the count includes it), a fatal error in the
      `count`-th instruction, or still going after the cut-off. */
  datatype Outcome =
    | Halted(final: State, count: nat)
    | Faulted(error: SimError, count: nat)
    | Running(current: State, count: nat)

  /** `run` from `st` with `count` instructions behind it, cut off after
      `fuel` more (the C loop has no bound). */
  function RunSpec(st: State, fuel: nat, count: nat): (r: Outcome)
    requires WellFormed(st)
    ensures r.Halted? || r.Faulted? ==> count < r.count <= count + fuel
    ensures r.Running? ==> WellFormed(r.current) && r.count == count + fuel
    decreases fuel, 1
  {
    if fuel == 0 then Running(st, count) else RunInstruction(st, fuel, count)
  }

  /** One iteration of `run`'s loop: `instCount++`, then the instruction. */
  function RunInstruction(st: State, fuel: nat, count: nat): (r: Outcome)
    requires WellFormed(st) && fuel > 0
    ensures r.Halted? || r.Faulted? ==> count < r.count <= count + fuel
    ensures r.Running? ==> WellFormed(r.current) && r.count == count + fuel
    decreases fuel, 0
  {
    match Exec(st)
    case Err(e) => Faulted(e, count + 1)
    case Ok(Halt) => Halted(st.(pc := st.pc + 1), count + 1)
    case Ok(Next(t)) => RunSpec(t, fuel - 1, count + 1)
  }

  // ------------------------------------------------------------------
  // Properties of the reference semantics

  /** Register 0 starts at 0 and no instruction can change it. */
  lemma ExecKeepsReg0(st: State)
    requires WellFormed(st) && st.reg[0] == 0
    ensures Exec(st).Ok? && Exec(st).value.Next? ==> Exec(st).value.after.reg[0] == 0
  {
  }

  /** pc moves to the next word, except for a taken beq (pc + 1 + offset)
      and jalr (the value read from regA after regB got pc + 1). Only sw
      writes memory, and beq, sw, halt and noop leave the registers. */
  lemma ExecControl(st: State)
    requires WellFormed(st) && Exec(st).Ok? && Exec(st).value.Next?
    ensures var t := Exec(st).value.after; var w := st.mem[st.pc]; var op := OpBits(w);
      && t.numMemory == st.numMemory
      && t.pc == (if op == BEQ && st.reg[Field0(w)] == st.reg[Field1(w)] then st.pc + 1 + ConvertNum(Field2(w))
                  else if op == JALR then st.reg[Field1(w) := st.pc + 1][Field0(w)]
                  else st.pc + 1)
      && (op != SW ==> t.mem == st.mem)
      && (op in {BEQ, SW, NOOP} ==> t.reg == st.reg)
  {
  }

  /** jalr with regA == regB returns to the next instruction. */
  lemma JalrSameRegister(st: State)
    requires WellFormed(st) && InBounds(st, st.pc)
    requires var w := st.mem[st.pc]; OpBits(w) == JALR && Field0(w) == Field1(w) != 0
    ensures Exec(st) == Ok(Next(st.(pc := st.pc + 1, reg := st.reg[Field1(st.mem[st.pc]) := st.pc + 1])))
  {
  }

  /** add wraps modulo 2^32. */
  lemma ExecAdd(st: State)
    requires WellFormed(st) && InBounds(st, st.pc)
    requires var w := st.mem[st.pc]; OpBits(w) == ADD && DestReg(w) != 0
    ensures var w := st.mem[st.pc];
      && Exec(st).Ok? && Exec(st).value.Next?
      && (Exec(st).value.after.reg[DestReg(w)] - (st.reg[Field0(w)] + st.reg[Field1(w)])) % TWO32 == 0
  {
    var w := st.mem[st.pc];
    WrapSpec(st.reg[Field0(w)] as int + st.reg[Field1(w)]);
  }

  /** nor clears exactly the bits set in either operand. */
  lemma ExecNor(st: State)
    requires WellFormed(st) && InBounds(st, st.pc)
    requires var w := st.mem[st.pc]; OpBits(w) == NOR && DestReg(w) != 0
    ensures var w := st.mem[st.pc];
      && Exec(st).Ok? && Exec(st).value.Next?
      && ToBits(Exec(st).value.after.reg[DestReg(w)]) == !(ToBits(st.reg[Field0(w)]) | ToBits(st.reg[Field1(w)]))
  {
    var w := st.mem[st.pc];
    NorSpec(st.reg[Field0(w)], st.reg[Field1(w)]);
  }

  /** lw and sw fault exactly when regA + offset, wrapped to a word and then
      read unsigned, is not below numMemory; otherwise lw loads that word
      into regB, and sw stores regB there. */
  lemma ExecAddress(st: State)
    requires WellFormed(st) && InBounds(st, st.pc)
    requires OpBits(st.mem[st.pc]) in {LW, SW}
    ensures var w := st.mem[st.pc]; var addr := Wrap(st.reg[Field0(w)] as int + ConvertNum(Field2(w)));
      && (Exec(st) == Err(OutOfBoundMem(addr)) <==> !InBounds(st, addr))
      && (InBounds(st, addr) && OpBits(w) == LW && Field1(w) != 0 ==>
            Exec(st) == Ok(Next(st.(pc := st.pc + 1, reg := st.reg[Field1(w) := st.mem[addr]]))))
      && (InBounds(st, addr) && OpBits(w) == SW ==>
            Exec(st) == Ok(Next(st.(pc := st.pc + 1, mem := st.mem[addr := st.reg[Field1(w)]]))))
      && (MININT32 <= st.reg[Field0(w)] + ConvertNum(Field2(w)) <= MAXINT32 ==>
            addr == st.reg[Field0(w)] + ConvertNum(Field2(w)))
  {
    var w := st.mem[st.pc];
    WrapSpec(st.reg[Field0(w)] as int + ConvertNum(Field2(w)));
  }

  /** Every write to register 0 is fatal: add and nor with destReg 0, lw
      with regB 0 (once its address is valid), jalr with regB 0. */
  lemma ExecWriteReg0(st: State)
    requires WellFormed(st) && InBounds(st, st.pc)
    ensures var w := st.mem[st.pc]; var op := OpBits(w);
      (((op == ADD || op == NOR) && DestReg(w) == 0)
       || (op == LW && Field1(w) == 0 && InBounds(st, Wrap(st.reg[Field0(w)] + ConvertNum(Field2(w)))))
       || (op == JALR && Field1(w) == 0))
      <==> Exec(st) == Err(WriteReg0(st.pc + 1))
  {
  }

  /** What a run reaches: `halt` is the last instruction counted, each
      instruction counts once, and register 0 stays 0 throughout. */
  lemma {:induction false} RunSpecEnds(st: State, fuel: nat, count: nat)
    requires WellFormed(st) && st.reg[0] == 0
    ensures match RunSpec(st, fuel, count)
      case Halted(f, c) =>
        && WellFormed(f) && count < c <= count + fuel && f.reg[0] == 0
        && 0 < f.pc <= f.numMemory && OpBits(f.mem[f.pc - 1]) == HALT
      case Faulted(_, c) => count < c <= count + fuel
      case Running(cur, c) => WellFormed(cur) && c == count + fuel && cur.reg[0] == 0
    decreases fuel
  {
    if fuel > 0 {
      assert RunSpec(st, fuel, count) == RunInstruction(st, fuel, count);
      ExecKeepsReg0(st);
      if Exec(st).Ok? && Exec(st).value.Next? {
        RunSpecEnds(Exec(st).value.after, fuel - 1, count + 1);
      }
    }
  }

  // ------------------------------------------------------------------
  // The finding in `__readReg`

  /** The bound `__readReg` checks, as written: `reg > NUMREGS`. */
  predicate ReadRegRejectsAsWritten(r: nat)
  {
    r > NUMREGS
  }

  /** Register number 8 passes that check although `reg[8]` lies outside
      the register file. No instruction field can name it. */
  lemma ReadRegAdmitsEight()
    ensures !ReadRegRejectsAsWritten(8) && 8 >= NUMREGS
    ensures forall w: Int32 :: Field0(w) < NUMREGS && Field1(w) < NUMREGS
  {
  }

  // ------------------------------------------------------------------
  // stateType and the stages

  /** What decode leaves for the word `w` at pc when it is not `halt`:
      pc advanced, regB already holding pc + 1 for jalr, `cunit` set, and
      the operands the format reads. */
  ghost predicate DecodedFrom(st: State, w: Int32, now: State, cu: ControlUnit, dd: DecodeData)
    requires WellFormed(st)
  {
    var op := OpBits(w);
    var a := Field0(w);
    var b := Field1(w);
    && InBounds(st, st.pc) && w == st.mem[st.pc]
    && cu == ControlUnit(op, ISA[op].format) && op != HALT
    && (op == JALR ==> b != 0 && now == st.(pc := st.pc + 1, reg := st.reg[b := st.pc + 1]) && dd.rdataA == now.reg[a])
    && (op != JALR ==> now == st.(pc := st.pc + 1))
    && (op < JALR ==> dd.rdataA == st.reg[a] && dd.rdataB == st.reg[b])
    && (op < LW ==> dd.destReg == DestReg(w))
    && (LW <= op < JALR ==> dd.offset == ConvertNum(Field2(w)) && dd.destReg == b)
  }

  /** What the instruction at `st.pc` has done once its memory stage is
      over: everything but the register write of add, nor and lw, which
      wait in `md`. */
  ghost predicate MemoryDone(st: State, w: Int32, now: State, cu: ControlUnit, md: MemoryData)
    requires WellFormed(st)
  {
    var op := OpBits(w);
    var a := Field0(w);
    var b := Field1(w);
    var pc1 := st.pc + 1;
    var offset := ConvertNum(Field2(w));
    var addr := Wrap(st.reg[a] as int + offset);
    && InBounds(st, st.pc) && w == st.mem[st.pc]
    && cu == ControlUnit(op, ISA[op].format) && op != HALT
    && (op == ADD ==> now == st.(pc := pc1) && md == MemoryData(Wrap(st.reg[a] as int + st.reg[b]), DestReg(w)))
    && (op == NOR ==> now == st.(pc := pc1) && md == MemoryData(Nor(st.reg[a], st.reg[b]), DestReg(w)))
    && (op == LW ==> InBounds(st, addr) && now == st.(pc := pc1) && md == MemoryData(st.mem[addr], b))
    && (op == SW ==> InBounds(st, addr) && now == st.(pc := pc1, mem := st.mem[addr := st.reg[b]]))
    && (op == BEQ ==> now == st.(pc := if st.reg[a] == st.reg[b] then pc1 + offset else pc1))
    && (op == JALR ==> b != 0 && now == st.(pc := st.reg[b := pc1][a], reg := st.reg[b := pc1]))
    && (op == NOOP ==> now == st.(pc := pc1))
  }

  /** Decode's search of `isa` for the opcode. It always succeeds, since
      every 3-bit opcode is listed at its own index, so decode's
      "unrecognized opcode" error cannot be raised. */
  method LookupOpcode(opcode: int) returns (entry: IsaEntry)
    requires 0 <= opcode < 8
    ensures entry in ISA && entry.opcode == opcode
    ensures entry == ISA[opcode]
  {
    var i := 0;
    while ISA[i].opcode != opcode
      invariant 0 <= i <= opcode
      decreases opcode - i
    {
      IsaCoversOpcodes(i);
      i := i + 1;
    }
    IsaCoversOpcodes(opcode);
    entry := ISA[i];
  }

  class Machine {
    var pc: Int32
    const mem: array<Int32>
    const reg: array<Int32>
    var numMemory: int
    var cunit: ControlUnit

    ghost predicate Valid()
      reads this
    {
      mem.Length == NUMMEMORY && reg.Length == NUMREGS && mem != reg && 0 <= numMemory <= NUMMEMORY
    }

    function Abs(): (st: State)
      reads this, mem, reg
      ensures Valid() ==> WellFormed(st)
    {
      State(pc, mem[..], reg[..], numMemory)
    }

    /** `stateType state = {0,}` with the program's words loaded from address 0. */
    constructor (program: seq<Int32>)
      requires |program| <= NUMMEMORY
      ensures Valid() && fresh(mem) && fresh(reg)
      ensures Abs() == State(0, program + seq(NUMMEMORY - |program|, _ => 0), seq(NUMREGS, _ => 0), |program|)
    {
      pc := 0;
      mem := new Int32[NUMMEMORY](i => if 0 <= i < |program| then program[i] else 0);
      reg := new Int32[NUMREGS](_ => 0);
      numMemory := |program|;
      cunit := ControlUnit(0, RType);
      new;
      assert mem[..] == program + seq(NUMMEMORY - |program|, _ => 0);
      assert reg[..] == seq(NUMREGS, _ => 0);
    }

    /** `__readReg`, with the bound corrected to `reg >= NUMREGS`. */
    function ReadReg(r: nat): (v: Result<Int32, SimError>)
      requires Valid()
      reads this, reg
      ensures v.Ok? <==> r < NUMREGS
      ensures v.Ok? ==> v.value == reg[r]
      ensures v.Err? ==> v.error == OutOfBoundReg(r)
    {
      if r >= NUMREGS then Err(OutOfBoundReg(r)) else Ok(reg[r])
    }

    /** `__writeReg`: register 0 is fatal, any other write changes just that register. */
    method WriteReg(r: RegIndex, data: Int32) returns (err: Option<SimError>)
      requires Valid()
      modifies reg
      ensures r == 0 ==> err == Some(WriteReg0(pc)) && Abs() == old(Abs())
      ensures r != 0 ==> err.None? && Abs() == old(Abs()).(reg := old(reg[..])[r := data])
    {
      if r == 0 {
        return Some(WriteReg0(pc));
      }
      reg[r] := data;
      return None;
    }

    /** `__readMem`: only the first `numMemory` words can be read. */
    function ReadMem(addr: Int32): (v: Result<Int32, SimError>)
      requires Valid()
      reads this, mem
      ensures v.Ok? <==> InBounds(Abs(), addr)
      ensures v.Ok? ==> 0 <= addr < numMemory && v.value == mem[addr]
      ensures v.Err? ==> v.error == OutOfBoundMem(addr)
    {
      if Unsigned(addr) >= numMemory then Err(OutOfBoundMem(addr)) else Ok(mem[addr])
    }

    /** `__writeMem`: only the first `numMemory` words can be written, and
        a write changes just that word. */
    method WriteMem(addr: Int32, data: Int32) returns (err: Option<SimError>)
      requires Valid()
      modifies mem
      ensures !InBounds(Abs(), addr) ==> err == Some(OutOfBoundMem(addr)) && Abs() == old(Abs())
      ensures InBounds(Abs(), addr) ==> err.None? && Abs() == old(Abs()).(mem := old(mem[..])[addr := data])
    {
      if Unsigned(addr) >= numMemory {
        return Some(OutOfBoundMem(addr));
      }
      mem[addr] := data;
      return None;
    }

    /** `fetch`: the word at pc, and pc advanced by one. */
    method Fetch() returns (r: Result<FetchData, SimError>)
      requires Valid()
      modifies this
      ensures Valid() && cunit == old(cunit)
      ensures !InBounds(old(Abs()), old(pc)) ==> r == Err(OutOfBoundMem(old(pc))) && Abs() == old(Abs())
      ensures InBounds(old(Abs()), old(pc)) ==>
        r == Ok(FetchData(old(mem[pc]))) && Abs() == old(Abs()).(pc := old(pc) + 1)
    {
      var word :- ReadMem(pc);
      r := Ok(FetchData(word));
      pc := pc + 1;
    }

    /** `decode`: looks the opcode up in the ISA table, records it in
        `cunit`, and reads the operands its format names. jalr already
        writes pc + 1 into regB here, before it reads regA. */
    method Decode(fd: FetchData, prev: DecodeData) returns (r: Result<Decoded, SimError>)
      requires Valid()
      modifies this, reg
      ensures Valid()
      ensures var w := fd.inst; var op := OpBits(w); var a := Field0(w); var b := Field1(w);
        && cunit == ControlUnit(op, ISA[op].format)
        && (ISA[op].format == RType ==>
              Abs() == old(Abs()) && r == Ok(Go(DecodeData(old(reg[a]), old(reg[b]), prev.offset, DestReg(w)))))
        && (ISA[op].format == IType ==>
              Abs() == old(Abs()) && r == Ok(Go(DecodeData(old(reg[a]), old(reg[b]), ConvertNum(Field2(w)), b))))
        && (ISA[op].format == JType && b == 0 ==> Abs() == old(Abs()) && r == Err(WriteReg0(pc)))
        && (ISA[op].format == JType && b != 0 ==>
              Abs() == old(Abs()).(reg := old(reg[..])[b := pc]) && r == Ok(Go(prev.(rdataA := reg[a]))))
        && (op == HALT ==> Abs() == old(Abs()) && r == Ok(Stop))
        && (op == NOOP ==> Abs() == old(Abs()) && r == Ok(Go(prev)))
    {
      var opcode := OpBits(fd.inst);
      var entry := LookupOpcode(opcode);
      var format := entry.format;
      cunit := ControlUnit(opcode, format);
      var a := Field0(fd.inst);
      var b := Field1(fd.inst);
      // Both register fields are 3 bits wide, so these reads never fail.
      match format {
        case RType =>
          var rdataA := ReadReg(a).value;
          var rdataB := ReadReg(b).value;
          r := Ok(Go(DecodeData(rdataA, rdataB, prev.offset, DestReg(fd.inst))));
        case IType =>
          var rdataA := ReadReg(a).value;
          var rdataB := ReadReg(b).value;
          r := Ok(Go(DecodeData(rdataA, rdataB, ConvertNum(Field2(fd.inst)), b)));
        case JType =>
          var err := WriteReg(b, pc);
          if err.Some? {
            return Err(err.value);
          }
          var rdataA := ReadReg(a).value;
          r := Ok(Go(prev.(rdataA := rdataA)));
        case OType =>
          if opcode == HALT {
            return Ok(Stop);
          }
          r := Ok(Go(prev));
      }
    }

    /** `execute`: the ALU for add and nor, the address for lw and sw, and
        the pc for a taken beq and for jalr. */
    method Execute(dd: DecodeData, prev: ExecuteData) returns (ed: ExecuteData)
      requires Valid()
      modifies this
      ensures Valid() && cunit == old(cunit)
      ensures var op := cunit.opcode;
        && ed == (if op == ADD then ExecuteData(prev.address, Wrap(dd.rdataA as int + dd.rdataB), dd.destReg)
                  else if op == NOR then ExecuteData(prev.address, Nor(dd.rdataA, dd.rdataB), dd.destReg)
                  else if op == LW then ExecuteData(Wrap(dd.rdataA as int + dd.offset), prev.data, dd.destReg)
                  else if op == SW then ExecuteData(Wrap(dd.rdataA as int + dd.offset), dd.rdataB, dd.destReg)
                  else prev.(destReg := dd.destReg))
        && Abs() == old(Abs()).(pc := if op == BEQ && dd.rdataA == dd.rdataB then Wrap(old(pc) as int + dd.offset)
                                      else if op == JALR then dd.rdataA
                                      else old(pc))
    {
      ed := prev.(destReg := dd.destReg);
      match cunit.opcode {
        case 0 =>
          ed := ed.(data := Wrap(dd.rdataA as int + dd.rdataB));
        case 1 =>
          ed := ed.(data := Nor(dd.rdataA, dd.rdataB));
        case 2 =>
          ed := ed.(address := Wrap(dd.rdataA as int + dd.offset));
        case 3 =>
          ed := ed.(address := Wrap(dd.rdataA as int + dd.offset));
          ed := ed.(data := dd.rdataB);
        case 4 =>
          if dd.rdataA == dd.rdataB {
            pc := Wrap(pc as int + dd.offset);
          }
        case 5 =>
          pc := dd.rdataA;
        case _ =>
      }
    }

    /** `memory`: lw reads and sw writes the word at the address; any other
        opcode passes the data on. */
    method Memory(ed: ExecuteData, prev: MemoryData) returns (r: Result<MemoryData, SimError>)
      requires Valid()
      modifies mem
      ensures var op := cunit.opcode;
        && ((op == LW || op == SW) && !InBounds(old(Abs()), ed.address) ==> r == Err(OutOfBoundMem(ed.address)))
        && (op == LW && InBounds(old(Abs()), ed.address) ==>
              r == Ok(MemoryData(old(mem[ed.address]), ed.destReg)) && Abs() == old(Abs()))
        && (op == SW && InBounds(old(Abs()), ed.address) ==>
              r == Ok(prev.(destReg := ed.destReg)) && Abs() == old(Abs()).(mem := old(mem[..])[ed.address := ed.data]))
        && (op != LW && op != SW ==> r == Ok(MemoryData(ed.data, ed.destReg)) && Abs() == old(Abs()))
    {
      r := Ok(prev.(destReg := ed.destReg));
      if cunit.opcode == LW {
        var data :- ReadMem(ed.address);
        r := Ok(r.value.(data := data));
      } else if cunit.opcode == SW {
        var err := WriteMem(ed.address, ed.data);
        if err.Some? {
          return Err(err.value);
        }
      } else {
        r := Ok(r.value.(data := ed.data));
      }
    }

    /** `writeback`: add, nor and lw write their result to the destination
        register; other opcodes write nothing. */
    method Writeback(md: MemoryData) returns (err: Option<SimError>)
      requires Valid()
      modifies reg
      ensures var op := cunit.opcode;
        && (op in {ADD, NOR, LW} && md.destReg == 0 ==> err == Some(WriteReg0(pc)))
        && (op in {ADD, NOR, LW} && md.destReg != 0 ==>
              err.None? && Abs() == old(Abs()).(reg := old(reg[..])[md.destReg := md.data]))
        && (op !in {ADD, NOR, LW} ==> err.None? && Abs() == old(Abs()))
    {
      err := None;
      if cunit.opcode == ADD || cunit.opcode == NOR || cunit.opcode == LW {
        err := WriteReg(md.destReg, md.data);
      }
    }

    /** One iteration of `run`'s loop after `instCount++`: the five stages,
        stopping at halt. Whatever the stale out-struct fields hold, the
        effect is the instruction's `Exec`. */
    method Step(bufs: Buffers) returns (halted: bool, err: Option<SimError>, next: Buffers)
      requires Valid()
      modifies this, mem, reg
      ensures Valid()
      ensures Exec(old(Abs())).Err? ==> err == Some(Exec(old(Abs())).error)
      ensures Exec(old(Abs())) == Ok(Halt) ==> err.None? && halted && Abs() == old(Abs()).(pc := old(pc) + 1)
      ensures Exec(old(Abs())).Ok? && Exec(old(Abs())).value.Next? ==>
        err.None? && !halted && Abs() == Exec(old(Abs())).value.after
    {
      ghost var st := Abs();
      next := bufs;
      halted := false;
      err := None;
      var f := Fetch();
      if f.Err? {
        assert Exec(st) == Err(f.error);
        return false, Some(f.error), next;
      }
      next := next.(fd := f.value);
      ghost var w := f.value.inst;
      assert w == st.mem[st.pc] && pc == st.pc + 1;
      var d := Decode(next.fd, next.dd);
      if d.Err? {
        assert Exec(st) == Err(d.error);
        return false, Some(d.error), next;
      }
      if d.value.Stop? {
        assert Exec(st) == Ok(Halt);
        return true, None, next;
      }
      next := next.(dd := d.value.out);
      assert DecodedFrom(st, w, Abs(), cunit, next.dd);
      err, next := Finish(st, w, next);
    }

    /** The rest of the loop body after decode: execute, memory and
        writeback, which together do what `Exec` says the instruction does. */
    method Finish(ghost st: State, ghost w: Int32, bufs: Buffers) returns (err: Option<SimError>, next: Buffers)
      requires Valid() && WellFormed(st) && DecodedFrom(st, w, Abs(), cunit, bufs.dd)
      modifies this, mem, reg
      ensures Valid()
      ensures Exec(st).Err? ==> err == Some(Exec(st).error)
      ensures Exec(st).Ok? ==> Exec(st).value.Next? && err.None? && Abs() == Exec(st).value.after
    {
      err, next := ExecuteMemory(st, w, bufs);
      if err.Some? {
        assert Exec(st) == Err(err.value);
        return;
      }
      err := Writeback(next.md);
      ghost var op := OpBits(w);
      if err.Some? {
        assert Exec(st) == Err(err.value);
      } else if op == ADD || op == NOR {
        assert Exec(st) == Ok(Next(Abs()));
      } else if op == LW {
        assert Exec(st) == Ok(Next(Abs()));
      } else {
        assert Exec(st) == Ok(Next(Abs()));
      }
    }

    /** Execute and memory: a load or store outside memory is the
        instruction's fault; otherwise only the register write is left. */
    method ExecuteMemory(ghost st: State, ghost w: Int32, bufs: Buffers) returns (err: Option<SimError>, next: Buffers)
      requires Valid() && WellFormed(st) && DecodedFrom(st, w, Abs(), cunit, bufs.dd)
      modifies this, mem
      ensures Valid()
      ensures var op := OpBits(w);
        var addr := Wrap(st.reg[Field0(w)] as int + ConvertNum(Field2(w)));
        err.Some? ==> (op == LW || op == SW) && !InBounds(st, addr) && err == Some(OutOfBoundMem(addr))
      ensures err.None? ==> MemoryDone(st, w, Abs(), cunit, next.md)
    {
      next := bufs;
      var e := Execute(next.dd, next.ed);
      next := next.(ed := e);
      var m := Memory(next.ed, next.md);
      if m.Err? {
        return Some(m.error), next;
      }
      next := next.(md := m.value);
      err := None;
    }

    /** `run` on this machine, cut off after `maxInstructions` iterations:
        the outcome and the count are `RunSpec`'s, and the machine is left
        in the outcome's state. */
    method Run(maxInstructions: nat) returns (r: Outcome)
      requires Valid()
      modifies this, mem, reg
      ensures Valid()
      ensures r == RunSpec(old(Abs()), maxInstructions, 0)
      ensures r.Halted? ==> Abs() == r.final
      ensures r.Running? ==> Abs() == r.current
    {
      var instCount := 0;
      var bufs := ZeroBuffers;
      var fuel := maxInstructions;
      while true
        invariant Valid()
        invariant RunSpec(Abs(), fuel, instCount) == RunSpec(old(Abs()), maxInstructions, 0)
        decreases fuel
      {
        if fuel == 0 {
          return Running(Abs(), instCount);
        }
        ghost var st := Abs();
        assert RunSpec(st, fuel, instCount) == RunInstruction(st, fuel, instCount);
        instCount := instCount + 1;
        var halted, err;
        halted, err, bufs := Step(bufs);
        if err.Some? {
          return Faulted(err.value, instCount);
        }
        if halted {
          return Halted(Abs(), instCount);
        }
        fuel := fuel - 1;
      }
    }
  }
}
