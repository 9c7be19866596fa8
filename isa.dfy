/**
  The LC-2K instruction set shared by the assemblers and both simulators:
  32-bit words, the opcode table, the four instruction formats and the
  shift-and-mask accessors that pick an instruction word apart.

  A machine word is kept as the value a C `int` holds (`Int32`). Shifts and
  masks are written as Euclidean division and remainder by powers of two,
  which on a two's-complement value is exactly an arithmetic right shift and
  a bitwise and with a low mask.
*/
module Isa {
  import opened Wrappers

  const TWO16: int := 0x1_0000
  const TWO31: int := 0x8000_0000
  const TWO32: int := 0x1_0000_0000
  const MININT16: int := -0x8000
  const MAXINT16: int := 0x7FFF
  const MININT32: int := -0x8000_0000
  const MAXINT32: int := 0x7FFF_FFFF

  /** Words of memory and registers of both simulators. */
  const NUMMEMORY: int := 65536
  const NUMREGS: int := 8

  /** The values of a 32-bit two's-complement C `int`. */
  type Int32 = x: int | -0x8000_0000 <= x < 0x8000_0000

  /** Reduces an integer modulo 2^32 to the signed 32-bit value with the same bits. */
  function Wrap(x: int): Int32
  {
    ((x + TWO31) % TWO32) - TWO31
  }

  lemma WrapSpec(x: int)
    ensures (Wrap(x) - x) % TWO32 == 0
    ensures MININT32 <= x <= MAXINT32 ==> Wrap(x) == x
  {
  }

  /** The value of the same 32 bits read as an unsigned `word_t`. */
  function Unsigned(x: Int32): (u: int)
    ensures 0 <= u < TWO32
    ensures (u - x) % TWO32 == 0
  {
    if x < 0 then x + TWO32 else x
  }

  /** An unsigned bound check `(word_t)a >= n` rejects exactly the negative
      values and those at or above `n`. */
  lemma UnsignedAtLeast(a: Int32, n: int)
    requires 0 <= n <= TWO31
    ensures Unsigned(a) >= n <==> (a < 0 || a >= n)
  {
  }

  /** Bitwise or-not, `~(a | b)`, on the two's-complement bits. */
  function Nor(a: Int32, b: Int32): Int32
  {
    FromBits(!(ToBits(a) | ToBits(b)))
  }

  lemma BitsBound(b: bv32)
    ensures b as int < TWO32
  {
  }

  /** Reading 32 bits as an `int` and back loses nothing. */
  lemma BitsRoundTrip(b: bv32)
    ensures ToBits(FromBits(b)) == b
  {
    var n: int := b as int;
    BitsBound(b);
    if n < TWO31 {
      assert FromBits(b) == n;
    } else {
      assert FromBits(b) == n - TWO32;
    }
    assert Unsigned(FromBits(b)) == n;
    BitsOfValue(b, n);
  }

  lemma BitsOfValue(b: bv32, n: int)
    requires n == b as int
    ensures n as bv32 == b
  {
  }

  /** Nor clears exactly the bits set in either operand, in either order. */
  lemma NorSpec(a: Int32, b: Int32)
    ensures ToBits(Nor(a, b)) == !(ToBits(a) | ToBits(b))
    ensures Nor(a, b) == Nor(b, a)
  {
    BitsRoundTrip(!(ToBits(a) | ToBits(b)));
    assert ToBits(a) | ToBits(b) == ToBits(b) | ToBits(a);
  }

  /** A difference of two `int`s wraps to 0 only when it is 0. */
  lemma WrapZero(d: int)
    requires -TWO32 < d < TWO32
    ensures Wrap(d) == 0 <==> d == 0
  {
  }

  function ToBits(x: Int32): bv32
  {
    Unsigned(x) as bv32
  }

  function FromBits(b: bv32): Int32
  {
    var n: int := b as int;
    if n < TWO31 then n else n - TWO32
  }

  // ------------------------------------------------------------------
  // Opcodes and formats

  const ADD: int := 0
  const NOR: int := 1
  const LW: int := 2
  const SW: int := 3
  const BEQ: int := 4
  const JALR: int := 5
  const HALT: int := 6
  const NOOP: int := 7

  /** `noop` with all register fields zero: 7 << 22. */
  const NOOPINSTRUCTION: Int32 := 0x1c0_0000

  datatype Format = RType | IType | JType | OType

  datatype IsaEntry = IsaEntry(name: string, opcode: int, format: Format)

  /** The `isa[]` table, the same in all three programs. */
  const ISA: seq<IsaEntry> := [
    IsaEntry("add", ADD, RType),
    IsaEntry("nor", NOR, RType),
    IsaEntry("lw", LW, IType),
    IsaEntry("sw", SW, IType),
    IsaEntry("beq", BEQ, IType),
    IsaEntry("jalr", JALR, JType),
    IsaEntry("halt", HALT, OType),
    IsaEntry("noop", NOOP, OType)
  ]

  /** Entry `i` of the table has opcode `i`, so every 3-bit opcode is listed. */
  lemma IsaCoversOpcodes(op: int)
    requires 0 <= op < 8
    ensures ISA[op].opcode == op
  {
  }

  /** The table entry whose mnemonic is `name`, searching from entry `i` on. */
  function FindMnemonic(name: string, i: nat := 0): (r: Option<IsaEntry>)
    requires i <= |ISA|
    ensures r.Some? <==> exists k :: i <= k < |ISA| && ISA[k].name == name
    ensures r.Some? ==> r.value.name == name && r.value in ISA[i..]
    decreases |ISA| - i
  {
    if i == |ISA| then None
    else if ISA[i].name == name then Some(ISA[i])
    else FindMnemonic(name, i + 1)
  }

  /** The table search finds `beq` at its own entry. */
  lemma FindBeq()
    ensures FindMnemonic("beq") == Some(ISA[BEQ])
  {
    assert FindMnemonic("beq", 4) == Some(ISA[BEQ]);
    assert ISA[3].name[0] != 'b' && FindMnemonic("beq", 3) == FindMnemonic("beq", 4);
    assert ISA[2].name[0] != 'b' && FindMnemonic("beq", 2) == FindMnemonic("beq", 3);
    assert ISA[1].name[0] != 'b' && FindMnemonic("beq", 1) == FindMnemonic("beq", 2);
    assert ISA[0].name[0] != 'b' && FindMnemonic("beq", 0) == FindMnemonic("beq", 1);
  }

  // ------------------------------------------------------------------
  // Field accessors: opcode in bits 22-24, regA in 19-21, regB in 16-18,
  // offset in 0-15 (I-type) or destReg in 0-2 (R-type).

  /** `(instr >> 19) & 0x7`: regA. */
  function Field0(w: Int32): (r: int)
    ensures 0 <= r < 8
  {
    (w / 0x8_0000) % 8
  }

  /** `(instr >> 16) & 0x7`: regB. */
  function Field1(w: Int32): (r: int)
    ensures 0 <= r < 8
  {
    (w / 0x1_0000) % 8
  }

  /** `instr & 0xFFFF`: the raw 16-bit offset. */
  function Field2(w: Int32): (r: int)
    ensures 0 <= r < TWO16
  {
    w % TWO16
  }

  /** `instr & 0x7`: destReg of an R-type word. */
  function DestReg(w: Int32): (r: int)
    ensures 0 <= r < 8
  {
    w % 8
  }

  /** `instr >> 22`, an arithmetic shift: the opcode, but nothing masks off
      bits 25-31, so a data word can give any value in [-512, 511]. */
  function Opcode(w: Int32): (r: int)
    ensures -512 <= r < 512
  {
    w / 0x40_0000
  }

  /** The unsigned 3-bit bit-field `opcode` (bits 22-24) of the instruction union. */
  function OpBits(w: Int32): (r: int)
    ensures 0 <= r < 8
  {
    (w / 0x40_0000) % 8
  }

  /** `(int)(short)v`: the 16-bit two's-complement reading of the low half of `v`. */
  function ConvertNum(v: int): (r: int)
    ensures MININT16 <= r <= MAXINT16
    ensures (r - v) % TWO16 == 0
  {
    var low := v % TWO16;
    if low > MAXINT16 then low - TWO16 else low
  }

  /** Packs the fields: `opcode<<22 | regA<<19 | regB<<16 | low`. The fields
      occupy disjoint bits, so the bitwise or is the sum. Bits 25-31 stay 0. */
  function Encode(op: int, regA: int, regB: int, low: int): (w: Int32)
    requires 0 <= op < 8 && 0 <= regA < 8 && 0 <= regB < 8 && 0 <= low < TWO16
    ensures 0 <= w < 0x200_0000
  {
    op * 0x40_0000 + regA * 0x8_0000 + regB * 0x1_0000 + low
  }

  /** Decoding an encoded word gives back every field. */
  lemma DecodeEncode(op: int, regA: int, regB: int, low: int)
    requires 0 <= op < 8 && 0 <= regA < 8 && 0 <= regB < 8 && 0 <= low < TWO16
    ensures Opcode(Encode(op, regA, regB, low)) == op
    ensures OpBits(Encode(op, regA, regB, low)) == op
    ensures Field0(Encode(op, regA, regB, low)) == regA
    ensures Field1(Encode(op, regA, regB, low)) == regB
    ensures Field2(Encode(op, regA, regB, low)) == low
    ensures DestReg(Encode(op, regA, regB, low)) == low % 8
    ensures low < 8 ==> DestReg(Encode(op, regA, regB, low)) == low
  {
    var w := Encode(op, regA, regB, low);
    var h := op * 0x40 + regA * 0x8 + regB;
    DivModUnique(w, h, low, TWO16);
    DivModUnique(h, op * 8 + regA, regB, 8);
    DivModUnique(w, op * 8 + regA, regB * TWO16 + low, 0x8_0000);
    DivModUnique(op * 8 + regA, op, regA, 8);
    DivModUnique(w, op, regA * 0x8_0000 + regB * TWO16 + low, 0x40_0000);
    DivModUnique(op, 0, op, 8);
    DivModUnique(low, low / 8, low % 8, 8);
    DivModUnique(w, h * 0x2000 + low / 8, low % 8, 8);
  }

  /** Euclidean division is determined by quotient and remainder. */
  lemma DivModUnique(x: int, q: int, r: int, d: int)
    requires 0 < d && 0 <= r < d && x == q * d + r
    ensures x / d == q && x % d == r
  {
    var q', r' := x / d, x % d;
    assert q' * d + r' == x;
    if q' < q {
      MulAtLeast(q - q', d);
      assert false;
    } else if q' > q {
      MulAtLeast(q' - q, d);
      assert false;
    }
  }

  lemma MulAtLeast(a: int, d: int)
    requires 1 <= a && 0 < d
    ensures a * d >= d
  {
    assert a * d == (a - 1) * d + d;
  }

  /** Every word whose bits 25-31 are clear is the encoding of its own fields. */
  lemma EncodeDecode(w: Int32)
    requires 0 <= w < 0x200_0000
    ensures Encode(Opcode(w), Field0(w), Field1(w), Field2(w)) == w
  {
    var q := w / TWO16;
    assert w == q * TWO16 + Field2(w);
    assert q == (q / 8) * 8 + Field1(w);
    assert q / 8 == w / 0x8_0000;
    assert w / 0x8_0000 == Opcode(w) * 8 + Field0(w);
  }

  /** `instr >> 22` names one of the eight opcodes exactly when bits 25-31
      are clear, and then it agrees with the 3-bit opcode field. */
  lemma OpcodeInRange(w: Int32)
    ensures 0 <= Opcode(w) < 8 <==> 0 <= w < 0x200_0000
    ensures 0 <= w < 0x200_0000 ==> OpBits(w) == Opcode(w)
  {
  }

  /** Sign extension is the identity on 16-bit values and inverts the
      16-bit mask `v & 0xFFFF`. */
  lemma ConvertNumInverse(v: int)
    requires MININT16 <= v <= MAXINT16
    ensures ConvertNum(v) == v
    ensures ConvertNum(v % TWO16) == v
  {
  }
}
