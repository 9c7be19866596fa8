/**
  The strict LC-2K assembler (project1/assembler/assemble.c).

  Pass 1 gives every line that has an opcode the next address and enters its
  label, if any, in an append-only symbol list; invalid and duplicate labels
  are fatal. Pass 2 translates the same lines, in order, into one word each.
  Every `raiseError` ends the process: here it is an `AsmError`, and the
  words already written to the output file before it are kept.
*/
module StrictAssembler {
  import opened Wrappers
  import opened Isa
  import opened Numeral

  const MAXLABELSIZE: nat := 6

  datatype AsmError =
    | Unrecognize     // ER_UNRECOGNIZE
    | WrongReg        // ER_WRONGREG
    | Insufficient    // ER_INSUFFICIENT
    | WordOvfl        // ER_WORDOVFL
    | OffsetOvfl      // ER_OFFSETOVFL
    | LabelInvalid    // ER_LABELINVALID
    | Duplicate       // ER_DUPLICATE
    | Undefined       // ER_UNDEFINED

  /** One source line, split by `readAndParse`; an absent field is "". */
  datatype Line = Line(labelName: string, opcode: string, arg0: string, arg1: string, arg2: string)

  /** An entry of the symbol list: a label and its address. */
  datatype Symbol = Symbol(name: string, word: Int32)

  // ------------------------------------------------------------------
  // The symbol list

  /** The first entry named `name`; `None` is the `notfound` sentinel. */
  function Find(entries: seq<Symbol>, name: string): (r: Option<Symbol>)
    ensures r.Some? ==> r.value in entries && r.value.name == name
    ensures r.None? <==> forall i :: 0 <= i < |entries| ==> entries[i].name != name
  {
    if |entries| == 0 then None
    else if entries[0].name == name then Some(entries[0])
    else Find(entries[1..], name)
  }

  lemma {:induction false} FindAppend(entries: seq<Symbol>, s: Symbol, name: string)
    ensures Find(entries + [s], name) ==
      if Find(entries, name).Some? then Find(entries, name)
      else if s.name == name then Some(s) else None
  {
    if |entries| > 0 {
      assert (entries + [s])[1..] == entries[1..] + [s];
      FindAppend(entries[1..], s, name);
    }
  }

  /** No two entries share a name. */
  ghost predicate UniqueNames(entries: seq<Symbol>)
  {
    forall i, j :: 0 <= i < j < |entries| ==> entries[i].name != entries[j].name
  }

  /** In a list without duplicates the entry found is the only one with that name. */
  lemma {:induction false} FindUnique(entries: seq<Symbol>, k: nat)
    requires UniqueNames(entries) && k < |entries|
    ensures Find(entries, entries[k].name) == Some(entries[k])
  {
    if k > 0 {
      assert entries[0].name != entries[k].name;
      assert UniqueNames(entries[1..]) by {
        forall i, j | 0 <= i < j < |entries| - 1
          ensures entries[1..][i].name != entries[1..][j].name
        {
          assert entries[1..][i] == entries[i + 1] && entries[1..][j] == entries[j + 1];
        }
      }
      FindUnique(entries[1..], k - 1);
    }
  }

  /** `__isValidLabel`: at most six characters, the first an ASCII letter.
      The characters after the first are not inspected. */
  function IsValidLabel(name: string): (b: bool)
    ensures b ==> 0 < |name| <= MAXLABELSIZE && LeadingInt(name).None?
  {
    0 < |name| <= MAXLABELSIZE &&
    (('A' <= name[0] <= 'Z') || ('a' <= name[0] <= 'z'))
  }

  /** `addLabel` on the list as a value: validate, reject a name already
      present, else append. */
  function DefineLabel(entries: seq<Symbol>, name: string, word: Int32): (r: Result<seq<Symbol>, AsmError>)
    ensures r.Ok? <==> IsValidLabel(name) && forall i :: 0 <= i < |entries| ==> entries[i].name != name
    ensures r.Ok? ==> r.value == entries + [Symbol(name, word)]
    ensures r.Err? ==> r.error == if IsValidLabel(name) then Duplicate else LabelInvalid
  {
    if !IsValidLabel(name) then Err(LabelInvalid)
    else if Find(entries, name).Some? then Err(Duplicate)
    else Ok(entries + [Symbol(name, word)])
  }

  /** What `addLabel` promises: it fails exactly on an invalid or an existing
      name; otherwise the name now resolves to `word`, every other name
      resolves as before, and names stay unique. */
  lemma DefineLabelSpec(entries: seq<Symbol>, name: string, word: Int32, other: string)
    requires UniqueNames(entries)
    ensures DefineLabel(entries, name, word).Err? <==>
      !IsValidLabel(name) || exists i :: 0 <= i < |entries| && entries[i].name == name
    ensures !IsValidLabel(name) ==> DefineLabel(entries, name, word) == Err(LabelInvalid)
    ensures IsValidLabel(name) && DefineLabel(entries, name, word).Err? ==>
      DefineLabel(entries, name, word) == Err(Duplicate)
    ensures DefineLabel(entries, name, word).Ok? ==>
      var e := DefineLabel(entries, name, word).value;
      && e[..|entries|] == entries
      && UniqueNames(e)
      && Find(e, name) == Some(Symbol(name, word))
      && (other != name ==> Find(e, other) == Find(entries, other))
  {
    FindAppend(entries, Symbol(name, word), name);
    FindAppend(entries, Symbol(name, word), other);
    if DefineLabel(entries, name, word).Ok? {
      var e := entries + [Symbol(name, word)];
      assert e[..|entries|] == entries;
    }
  }

  /** The global list `entry` and the functions that walk it. */
  class SymbolTable {
    var entries: seq<Symbol>

    constructor ()
      ensures entries == []
    {
      entries := [];
    }

    /** `__addSymbol`: link a new entry at the end of the list. */
    method AddSymbol(name: string, word: Int32)
      modifies this
      ensures entries == old(entries) + [Symbol(name, word)]
    {
      entries := entries + [Symbol(name, word)];
    }

    /** `__readSymbol`: walk the list from the head to the first equal name. */
    method ReadSymbol(name: string) returns (r: Option<Symbol>)
      ensures r == Find(entries, name)
    {
      var i := 0;
      while i < |entries|
        invariant 0 <= i <= |entries|
        invariant Find(entries[i..], name) == Find(entries, name)
      {
        assert entries[i..][1..] == entries[i + 1..];
        if entries[i].name == name {
          return Some(entries[i]);
        }
        i := i + 1;
      }
      return None;
    }

    /** `addLabel`; on an error the process ends and the list is left as it was. */
    method AddLabel(name: string, word: Int32) returns (err: Option<AsmError>)
      modifies this
      ensures DefineLabel(old(entries), name, word).Ok? ==>
        err.None? && entries == DefineLabel(old(entries), name, word).value
      ensures DefineLabel(old(entries), name, word).Err? ==>
        err == Some(DefineLabel(old(entries), name, word).error) && entries == old(entries)
    {
      if !IsValidLabel(name) {
        return Some(LabelInvalid);
      }
      var sym := ReadSymbol(name);
      if sym.Some? {
        return Some(Duplicate);
      }
      AddSymbol(name, word);
      return None;
    }
  }

  // ------------------------------------------------------------------
  // Operands

  /** `__getReg`: a register operand is exactly one character '0'..'7'. */
  function GetReg(tok: string): (r: Result<int, AsmError>)
    ensures r.Ok? <==> |tok| == 1 && '0' <= tok[0] <= '7'
    ensures r.Ok? ==> 0 <= r.value < 8 && tok == [DigitChar(r.value)]
    ensures r.Err? ==> r.error == WrongReg
  {
    if |tok| != 1 || tok[0] < '0' || tok[0] > '7' then Err(WrongReg)
    else Ok(tok[0] as int - '0' as int)
  }

  /** The 16-bit range check at the end of `__getOffset`. */
  function FitOffset(offset: int): (r: Result<int, AsmError>)
    ensures r.Ok? <==> MININT16 <= offset <= MAXINT16
    ensures r.Ok? ==> r.value == offset
  {
    if offset < MININT16 || offset > MAXINT16 then Err(OffsetOvfl) else Ok(offset)
  }

  /** `__getOffset`: the offset field of an I-type instruction. A label gives
      its address, made relative to the next instruction for `beq`. */
  function GetOffset(entries: seq<Symbol>, pc: int, opcode: string, arg: string): (r: Result<int, AsmError>)
    ensures r.Ok? ==> MININT16 <= r.value <= MAXINT16
    ensures LeadingInt(arg).Some? && !(MININT32 <= LeadingInt(arg).value <= MAXINT32) ==>
      r == Err(WordOvfl)
    ensures LeadingInt(arg).Some? && MININT32 <= LeadingInt(arg).value <= MAXINT32 ==>
      r == FitOffset(LeadingInt(arg).value)
    ensures LeadingInt(arg).None? && Find(entries, arg).None? ==> r == Err(Undefined)
    ensures LeadingInt(arg).None? && Find(entries, arg).Some? ==>
      var target := Find(entries, arg).value.word;
      r == FitOffset(if opcode == "beq" then target - pc - 1 else target)
  {
    match LeadingInt(arg)
    case Some(n) =>
      if n < MININT32 || n > MAXINT32 then Err(WordOvfl) else FitOffset(n)
    case None =>
      match Find(entries, arg)
      case None => Err(Undefined)
      case Some(sym) => FitOffset(if opcode == "beq" then sym.word - pc - 1 else sym.word)
  }

  /** `__getData`: the word of a `.fill`, a 32-bit literal or a label's
      absolute address, with no 16-bit limit. */
  function GetData(entries: seq<Symbol>, arg: string): (r: Result<Int32, AsmError>)
    ensures LeadingInt(arg).Some? ==>
      r == if MININT32 <= LeadingInt(arg).value <= MAXINT32 then Ok(LeadingInt(arg).value) else Err(WordOvfl)
    ensures LeadingInt(arg).None? ==>
      r == if Find(entries, arg).Some? then Ok(Find(entries, arg).value.word) else Err(Undefined)
  {
    match LeadingInt(arg)
    case Some(n) =>
      if n < MININT32 || n > MAXINT32 then Err(WordOvfl) else Ok(n)
    case None =>
      match Find(entries, arg)
      case None => Err(Undefined)
      case Some(sym) => Ok(sym.word)
  }

  // ------------------------------------------------------------------
  // Translation

  /** One instruction of a known mnemonic, packed by its format. */
  function TranslateInstruction(entries: seq<Symbol>, pc: int, entry: IsaEntry,
                                opcode: string, arg0: string, arg1: string, arg2: string): (r: Result<Int32, AsmError>)
    requires entry in ISA
    ensures r.Ok? ==> 0 <= r.value < 0x200_0000 && Opcode(r.value) == entry.opcode
    ensures r.Err? ==> r.error in {Insufficient, WrongReg, WordOvfl, OffsetOvfl, Undefined}
  {
    var op := entry.opcode;
    EntryOpcode(entry);
    match entry.format
    case RType =>
      if arg0 == "" || arg1 == "" || arg2 == "" then Err(Insufficient)
      else
        var a :- GetReg(arg0);
        var b :- GetReg(arg1);
        var d :- GetReg(arg2);
        DecodeEncode(op, a, b, d);
        Ok(Encode(op, a, b, d))
    case IType =>
      if arg0 == "" || arg1 == "" || arg2 == "" then Err(Insufficient)
      else
        var a :- GetReg(arg0);
        var b :- GetReg(arg1);
        var off :- GetOffset(entries, pc, opcode, arg2);
        DecodeEncode(op, a, b, off % TWO16);
        Ok(Encode(op, a, b, off % TWO16))
    case JType =>
      if arg0 == "" || arg1 == "" then Err(Insufficient)
      else
        var a :- GetReg(arg0);
        var b :- GetReg(arg1);
        DecodeEncode(op, a, b, 0);
        Ok(Encode(op, a, b, 0))
    case OType =>
      DecodeEncode(op, 0, 0, 0);
      Ok(Encode(op, 0, 0, 0))
  }

  /** `translate`: an instruction, a `.fill` directive, or ER_UNRECOGNIZE. */
  function Translate(entries: seq<Symbol>, pc: int, opcode: string,
                     arg0: string, arg1: string, arg2: string): (r: Result<Int32, AsmError>)
    ensures FindMnemonic(opcode).Some? && r.Ok? ==>
      0 <= r.value < 0x200_0000 && Opcode(r.value) == FindMnemonic(opcode).value.opcode
    ensures FindMnemonic(opcode).None? && opcode != ".fill" ==> r == Err(Unrecognize)
    ensures r.Err? ==> r.error != LabelInvalid && r.error != Duplicate
  {
    match FindMnemonic(opcode)
    case Some(entry) => TranslateInstruction(entries, pc, entry, opcode, arg0, arg1, arg2)
    case None =>
      if opcode == ".fill" then
        if arg0 == "" then Err(Insufficient) else GetData(entries, arg0)
      else Err(Unrecognize)
  }

  /** `translate` applied to the fields of one line. */
  function TranslateLine(entries: seq<Symbol>, pc: int, l: Line): Result<Int32, AsmError>
  {
    Translate(entries, pc, l.opcode, l.arg0, l.arg1, l.arg2)
  }

  /** The fields of a packed word, as the simulators' accessors read them. */
  predicate PacksTo(w: Int32, op: int, regA: int, regB: int, low: int)
  {
    && 0 <= w < 0x200_0000
    && Opcode(w) == op && OpBits(w) == op
    && Field0(w) == regA && Field1(w) == regB && Field2(w) == low
  }

  lemma EncodePacks(op: int, regA: int, regB: int, low: int)
    requires 0 <= op < 8 && 0 <= regA < 8 && 0 <= regB < 8 && 0 <= low < TWO16
    ensures PacksTo(Encode(op, regA, regB, low), op, regA, regB, low)
  {
    DecodeEncode(op, regA, regB, low);
  }

  lemma {:induction false} EntryOpcode(e: IsaEntry)
    requires e in ISA
    ensures 0 <= e.opcode < 8
  {
  }

  /** The operands of an R-type word come back from its fields. */
  lemma DecodesRType(entries: seq<Symbol>, pc: int, e: IsaEntry,
                     opcode: string, arg0: string, arg1: string, arg2: string)
    requires e in ISA && e.format == RType
    requires TranslateInstruction(entries, pc, e, opcode, arg0, arg1, arg2).Ok?
    ensures
      var w := TranslateInstruction(entries, pc, e, opcode, arg0, arg1, arg2).value;
      PacksTo(w, e.opcode, GetReg(arg0).value, GetReg(arg1).value, GetReg(arg2).value)
      && DestReg(w) == GetReg(arg2).value
  {
    EntryOpcode(e);
    var a, b, d := GetReg(arg0).value, GetReg(arg1).value, GetReg(arg2).value;
    assert TranslateInstruction(entries, pc, e, opcode, arg0, arg1, arg2).value == Encode(e.opcode, a, b, d);
    EncodePacks(e.opcode, a, b, d);
    DecodeEncode(e.opcode, a, b, d);
  }

  /** The registers of an I-type word come back from its fields, and its
      offset from the sign extension of the low half. */
  lemma DecodesIType(entries: seq<Symbol>, pc: int, e: IsaEntry,
                     opcode: string, arg0: string, arg1: string, arg2: string)
    requires e in ISA && e.format == IType
    requires TranslateInstruction(entries, pc, e, opcode, arg0, arg1, arg2).Ok?
    ensures
      var w := TranslateInstruction(entries, pc, e, opcode, arg0, arg1, arg2).value;
      PacksTo(w, e.opcode, GetReg(arg0).value, GetReg(arg1).value, Field2(w))
      && ConvertNum(Field2(w)) == GetOffset(entries, pc, opcode, arg2).value
  {
    EntryOpcode(e);
    var off := GetOffset(entries, pc, opcode, arg2).value;
    EncodePacks(e.opcode, GetReg(arg0).value, GetReg(arg1).value, off % TWO16);
    ConvertNumInverse(off);
  }

  /** The registers of a J-type word come back from its fields; the rest is 0. */
  lemma DecodesJType(entries: seq<Symbol>, pc: int, e: IsaEntry,
                     opcode: string, arg0: string, arg1: string, arg2: string)
    requires e in ISA && e.format == JType
    requires TranslateInstruction(entries, pc, e, opcode, arg0, arg1, arg2).Ok?
    ensures
      var w := TranslateInstruction(entries, pc, e, opcode, arg0, arg1, arg2).value;
      PacksTo(w, e.opcode, GetReg(arg0).value, GetReg(arg1).value, 0)
  {
    EntryOpcode(e);
    EncodePacks(e.opcode, GetReg(arg0).value, GetReg(arg1).value, 0);
  }

  /** Decoding what `translate` packed for a mnemonic, with the simulators'
      accessors, gives back the opcode and the operands: regA and regB, the
      destination register of an R-type word, the sign-extended offset of an
      I-type word; the unused fields and bits 25-31 are zero. */
  lemma TranslateDecodes(entries: seq<Symbol>, pc: int, opcode: string,
                         arg0: string, arg1: string, arg2: string)
    requires FindMnemonic(opcode).Some?
    requires Translate(entries, pc, opcode, arg0, arg1, arg2).Ok?
    ensures
      var w := Translate(entries, pc, opcode, arg0, arg1, arg2).value;
      var e := FindMnemonic(opcode).value;
      match e.format
      case RType =>
        PacksTo(w, e.opcode, GetReg(arg0).value, GetReg(arg1).value, GetReg(arg2).value)
        && DestReg(w) == GetReg(arg2).value
      case IType =>
        PacksTo(w, e.opcode, GetReg(arg0).value, GetReg(arg1).value, Field2(w))
        && ConvertNum(Field2(w)) == GetOffset(entries, pc, opcode, arg2).value
      case JType => PacksTo(w, e.opcode, GetReg(arg0).value, GetReg(arg1).value, 0)
      case OType => PacksTo(w, e.opcode, 0, 0, 0)
  {
    var e := FindMnemonic(opcode).value;
    assert e in ISA;
    EntryOpcode(e);
    match e.format
    case RType => DecodesRType(entries, pc, e, opcode, arg0, arg1, arg2);
    case IType => DecodesIType(entries, pc, e, opcode, arg0, arg1, arg2);
    case JType => DecodesJType(entries, pc, e, opcode, arg0, arg1, arg2);
    case OType => EncodePacks(e.opcode, 0, 0, 0);
  }

  /** The directive `.fill` assembles to its data word, and a name that is
      neither a mnemonic nor `.fill` is ER_UNRECOGNIZE. */
  lemma TranslateOthers(entries: seq<Symbol>, pc: int, opcode: string,
                        arg0: string, arg1: string, arg2: string)
    ensures opcode == ".fill" ==>
      Translate(entries, pc, opcode, arg0, arg1, arg2) ==
        if arg0 == "" then Err(Insufficient) else GetData(entries, arg0)
    ensures FindMnemonic(opcode).None? && opcode != ".fill" ==>
      Translate(entries, pc, opcode, arg0, arg1, arg2) == Err(Unrecognize)
  {
    if opcode == ".fill" {
      assert forall k :: 0 <= k < |ISA| ==> ISA[k].name != ".fill";
    }
  }

  /** An operand the format reads is empty. */
  predicate MissingOperand(f: Format, arg0: string, arg1: string, arg2: string)
  {
    match f
    case RType => arg0 == "" || arg1 == "" || arg2 == ""
    case IType => arg0 == "" || arg1 == "" || arg2 == ""
    case JType => arg0 == "" || arg1 == ""
    case OType => false
  }

  /** An operand the format reads as a register is not one. */
  predicate BadRegister(f: Format, arg0: string, arg1: string, arg2: string)
  {
    match f
    case RType => GetReg(arg0).Err? || GetReg(arg1).Err? || GetReg(arg2).Err?
    case IType => GetReg(arg0).Err? || GetReg(arg1).Err?
    case JType => GetReg(arg0).Err? || GetReg(arg1).Err?
    case OType => false
  }

  /** Every operand the format uses is present, and every register operand is one. */
  predicate OperandsRead(f: Format, arg0: string, arg1: string, arg2: string)
  {
    !MissingOperand(f, arg0, arg1, arg2) && !BadRegister(f, arg0, arg1, arg2)
  }

  /** How translating a mnemonic fails, in the order `translate` checks:
      ER_INSUFFICIENT exactly when an operand its format uses is missing,
      then ER_WRONGREG for a bad register operand, then for an I-type word
      the error of its offset; in every other case a word is produced. */
  lemma TranslateErrors(entries: seq<Symbol>, pc: int, opcode: string,
                        arg0: string, arg1: string, arg2: string)
    requires FindMnemonic(opcode).Some?
    ensures var f := FindMnemonic(opcode).value.format;
      var r := Translate(entries, pc, opcode, arg0, arg1, arg2);
      && (r == Err(Insufficient) <==> MissingOperand(f, arg0, arg1, arg2))
      && (!MissingOperand(f, arg0, arg1, arg2) && BadRegister(f, arg0, arg1, arg2) ==> r == Err(WrongReg))
      && (OperandsRead(f, arg0, arg1, arg2) && f == IType && GetOffset(entries, pc, opcode, arg2).Err? ==>
            r == Err(GetOffset(entries, pc, opcode, arg2).error))
      && (OperandsRead(f, arg0, arg1, arg2) && (f == IType ==> GetOffset(entries, pc, opcode, arg2).Ok?) ==>
            r.Ok?)
  {
    var e := FindMnemonic(opcode).value;
    assert e in ISA;
    InstructionErrors(entries, pc, e, opcode, arg0, arg1, arg2);
  }

  lemma InstructionErrors(entries: seq<Symbol>, pc: int, e: IsaEntry, opcode: string,
                          arg0: string, arg1: string, arg2: string)
    requires e in ISA
    ensures var f := e.format;
      var r := TranslateInstruction(entries, pc, e, opcode, arg0, arg1, arg2);
      && (r == Err(Insufficient) <==> MissingOperand(f, arg0, arg1, arg2))
      && (!MissingOperand(f, arg0, arg1, arg2) && BadRegister(f, arg0, arg1, arg2) ==> r == Err(WrongReg))
      && (OperandsRead(f, arg0, arg1, arg2) && f == IType && GetOffset(entries, pc, opcode, arg2).Err? ==>
            r == Err(GetOffset(entries, pc, opcode, arg2).error))
      && (OperandsRead(f, arg0, arg1, arg2) && (f == IType ==> GetOffset(entries, pc, opcode, arg2).Ok?) ==>
            r.Ok?)
  {
  }

  // ------------------------------------------------------------------
  // The two passes of `main`, as values

  /** Lines with a non-empty opcode; both passes skip the others. */
  function Ops(lines: seq<Line>): (r: seq<Line>)
    ensures |r| <= |lines|
    ensures forall k :: 0 <= k < |r| ==> r[k].opcode != ""
  {
    if |lines| == 0 then []
    else if lines[|lines| - 1].opcode == "" then Ops(lines[..|lines| - 1])
    else Ops(lines[..|lines| - 1]) + [lines[|lines| - 1]]
  }

  /** Every entry is a valid label naming one of the first `n` addresses. */
  ghost predicate ValidEntries(entries: seq<Symbol>, n: int)
  {
    forall k :: 0 <= k < |entries| ==> IsValidLabel(entries[k].name) && 0 <= entries[k].word < n
  }

  /** Pass 1 over `lines`: the symbol list it builds, or its first error.
      The address of a line is the number of non-empty lines before it. */
  function Pass1(lines: seq<Line>): (r: Result<seq<Symbol>, AsmError>)
    requires |lines| < TWO31
    ensures r.Ok? ==> |r.value| <= |Ops(lines)|
    ensures r.Ok? ==> ValidEntries(r.value, |Ops(lines)|)
  {
    if |lines| == 0 then Ok([])
    else
      var prefix := lines[..|lines| - 1];
      var entries :- Pass1(prefix);
      var line := lines[|lines| - 1];
      if line.opcode == "" || line.labelName == "" then Ok(entries)
      else DefineLabel(entries, line.labelName, |Ops(prefix)|)
  }

  /** What pass 2 has written so far, and the error that stopped it. */
  datatype Emission = Emission(words: seq<Int32>, error: Option<AsmError>)

  /** Writing translations out in order, stopping at the first error. */
  function Emit(results: seq<Result<Int32, AsmError>>): Emission
  {
    if |results| == 0 then Emission([], None)
    else
      var sofar := Emit(results[..|results| - 1]);
      if sofar.error.Some? then sofar
      else
        match results[|results| - 1]
        case Ok(w) => Emission(sofar.words + [w], None)
        case Err(e) => Emission(sofar.words, Some(e))
  }

  /** The translation of the k-th line with an opcode, at address k. */
  function Translations(entries: seq<Symbol>, ops: seq<Line>): (rs: seq<Result<Int32, AsmError>>)
    ensures |rs| == |ops|
  {
    seq(|ops|, k requires 0 <= k < |ops| => TranslateLine(entries, k, ops[k]))
  }

  /** Pass 2 over `lines`: the lines with an opcode, translated in order. */
  function Pass2(entries: seq<Symbol>, lines: seq<Line>): (out: Emission)
    ensures out.error.None? ==> |out.words| == |Ops(lines)|
    ensures out.error.Some? ==>
      var j := |out.words|;
      j < |Ops(lines)| && TranslateLine(entries, j, Ops(lines)[j]) == Err(out.error.value)
  {
    var results := Translations(entries, Ops(lines));
    var out := Emit(results);
    if out.error.None? then EmitLength(results); out
    else EmitFailure(results); out
  }

  /** The output file and the exit status. */
  datatype Outcome =
    | Assembled(words: seq<Int32>)
    | Failed(error: AsmError, written: seq<Int32>)

  /** The whole assembly: pass 1 errors stop it before anything is written. */
  function Assembly(lines: seq<Line>): (r: Outcome)
    requires |lines| < TWO31
    ensures Pass1(lines).Err? ==> r == Failed(Pass1(lines).error, [])
    ensures r.Assembled? ==> |r.words| == |Ops(lines)|
    ensures r.Failed? && Pass1(lines).Ok? ==> |r.written| < |Ops(lines)|
  {
    match Pass1(lines)
    case Err(e) => Failed(e, [])
    case Ok(entries) =>
      var out := Pass2(entries, lines);
      if out.error.None? then Assembled(out.words) else Failed(out.error.value, out.words)
  }

  lemma {:induction false} Pass1ErrorPersists(lines: seq<Line>, i: nat)
    requires i <= |lines| < TWO31
    requires Pass1(lines[..i]).Err?
    ensures Pass1(lines) == Pass1(lines[..i])
    decreases |lines| - i
  {
    if i < |lines| {
      var prefix := lines[..|lines| - 1];
      assert prefix[..i] == lines[..i];
      Pass1ErrorPersists(prefix, i);
    } else {
      assert lines[..i] == lines;
    }
  }

  lemma {:induction false} EmitErrorPersists(results: seq<Result<Int32, AsmError>>, i: nat)
    requires i <= |results|
    requires Emit(results[..i]).error.Some?
    ensures Emit(results) == Emit(results[..i])
    decreases |results| - i
  {
    if i < |results| {
      var prefix := results[..|results| - 1];
      assert prefix[..i] == results[..i];
      EmitErrorPersists(prefix, i);
    } else {
      assert results[..i] == results;
    }
  }

  /** Emitting one more translation. */
  lemma EmitStep(results: seq<Result<Int32, AsmError>>, j: nat)
    requires j < |results|
    ensures Emit(results[..j]).error.None? ==>
      Emit(results[..j + 1]) ==
        if results[j].Ok? then Emission(Emit(results[..j]).words + [results[j].value], None)
        else Emission(Emit(results[..j]).words, Some(results[j].error))
  {
    assert results[..j + 1][..j] == results[..j];
  }

  /** Pass 2 reaches the lines with an opcode in the order of `Ops`. */
  lemma OpsStep(lines: seq<Line>, i: nat)
    requires i < |lines|
    ensures |Ops(lines[..i + 1])| == |Ops(lines[..i])| + (if lines[i].opcode == "" then 0 else 1)
    ensures lines[i].opcode != "" ==>
      |Ops(lines[..i])| < |Ops(lines)| && Ops(lines)[|Ops(lines[..i])|] == lines[i]
  {
    assert lines[..i + 1][..i] == lines[..i];
    OpsPrefix(lines, i + 1);
  }

  /** The lines with an opcode before index `j` come first among all of them. */
  lemma {:induction false} OpsPrefix(lines: seq<Line>, j: nat)
    requires j <= |lines|
    ensures Ops(lines[..j]) <= Ops(lines)
    decreases |lines| - j
  {
    if j < |lines| {
      var prefix := lines[..|lines| - 1];
      assert prefix[..j] == lines[..j];
      OpsPrefix(prefix, j);
    } else {
      assert lines[..j] == lines;
    }
  }

  /** One line of pass 1: a label is entered at the line's address. */
  lemma Pass1Step(lines: seq<Line>, i: nat)
    requires i < |lines| < TWO31
    requires Pass1(lines[..i]).Ok?
    ensures |Ops(lines[..i + 1])| == |Ops(lines[..i])| + (if lines[i].opcode == "" then 0 else 1)
    ensures Pass1(lines[..i + 1]) ==
      if lines[i].opcode == "" || lines[i].labelName == "" then Pass1(lines[..i])
      else DefineLabel(Pass1(lines[..i]).value, lines[i].labelName, |Ops(lines[..i])|)
  {
    assert lines[..i + 1][..i] == lines[..i];
  }

  /** The first loop of `main`: calculate the address of every label. */
  method FirstPass(table: SymbolTable, lines: seq<Line>) returns (err: Option<AsmError>)
    requires |lines| < TWO31
    requires table.entries == []
    modifies table
    ensures Pass1(lines).Ok? ==> err.None? && table.entries == Pass1(lines).value
    ensures Pass1(lines).Err? ==> err == Some(Pass1(lines).error)
  {
    var pc := 0;
    var i := 0;
    while i < |lines|
      invariant 0 <= i <= |lines|
      invariant pc == |Ops(lines[..i])|
      invariant Pass1(lines[..i]) == Ok(table.entries)
    {
      var line := lines[i];
      Pass1Step(lines, i);
      if line.opcode != "" {
        if line.labelName != "" {
          var e := table.AddLabel(line.labelName, pc);
          if e.Some? {
            Pass1ErrorPersists(lines, i + 1);
            return e;
          }
        }
        pc := pc + 1;
      }
      i := i + 1;
    }
    assert lines[..i] == lines;
    return None;
  }

  /** The second loop of `main`: one word for every line with an opcode. */
  method SecondPass(entries: seq<Symbol>, lines: seq<Line>) returns (out: Emission)
    ensures out == Pass2(entries, lines)
  {
    ghost var ops := Ops(lines);
    ghost var results := Translations(entries, ops);
    var words: seq<Int32> := [];
    var pc := 0;
    var i := 0;
    while i < |lines|
      invariant 0 <= i <= |lines|
      invariant pc == |Ops(lines[..i])| <= |ops|
      invariant Emit(results[..pc]) == Emission(words, None)
    {
      var line := lines[i];
      OpsStep(lines, i);
      if line.opcode != "" {
        var inst := TranslateLine(entries, pc, line);
        assert inst == results[pc];
        EmitStep(results, pc);
        if inst.Err? {
          EmitErrorPersists(results, pc + 1);
          return Emission(words, Some(inst.error));
        }
        words := words + [inst.value];
        pc := pc + 1;
      }
      i := i + 1;
    }
    assert lines[..i] == lines;
    assert results[..pc] == results;
    return Emission(words, None);
  }

  /** `main`: pass 1, then pass 2 over the same lines. */
  method Assemble(lines: seq<Line>) returns (r: Outcome)
    requires |lines| < TWO31
    ensures r == Assembly(lines)
  {
    var table := new SymbolTable();
    var err := FirstPass(table, lines);
    if err.Some? {
      return Failed(err.value, []);
    }
    var out := SecondPass(table.entries, lines);
    if out.error.Some? {
      return Failed(out.error.value, out.words);
    }
    return Assembled(out.words);
  }

  // ------------------------------------------------------------------
  // Properties of the two passes

  /** Labels defined in pass 1 are unique. */
  lemma {:induction false} Pass1Unique(lines: seq<Line>)
    requires |lines| < TWO31
    requires Pass1(lines).Ok?
    ensures UniqueNames(Pass1(lines).value)
  {
    if |lines| > 0 {
      var prefix := lines[..|lines| - 1];
      Pass1Unique(prefix);
      var line := lines[|lines| - 1];
      if line.opcode != "" && line.labelName != "" {
        DefineLabelSpec(Pass1(prefix).value, line.labelName, |Ops(prefix)|, line.labelName);
      }
    }
  }

  /** The label of the line at index `i` names the address `|Ops(lines[..i])|`:
      the k-th line with an opcode gets address k. */
  lemma {:induction false} Pass1Address(lines: seq<Line>, i: nat)
    requires i < |lines| < TWO31
    requires Pass1(lines).Ok?
    requires lines[i].opcode != "" && lines[i].labelName != ""
    ensures Find(Pass1(lines).value, lines[i].labelName) == Some(Symbol(lines[i].labelName, |Ops(lines[..i])|))
  {
    var prefix := lines[..|lines| - 1];
    var line := lines[|lines| - 1];
    Pass1Unique(prefix);
    if i == |lines| - 1 {
      assert lines[..i] == prefix;
      DefineLabelSpec(Pass1(prefix).value, line.labelName, |Ops(prefix)|, line.labelName);
    } else {
      assert prefix[i] == lines[i] && prefix[..i] == lines[..i];
      Pass1Address(prefix, i);
      if line.opcode != "" && line.labelName != "" {
        DefineLabelSpec(Pass1(prefix).value, line.labelName, |Ops(prefix)|, lines[i].labelName);
      }
    }
  }

  /** Only labels of lines with an opcode are defined: a label on a line
      without one can never be referenced. */
  lemma {:induction false} Pass1OnlyDefines(lines: seq<Line>, name: string)
    requires |lines| < TWO31
    requires Pass1(lines).Ok? && Find(Pass1(lines).value, name).Some?
    ensures exists i :: 0 <= i < |lines| && lines[i].opcode != "" && lines[i].labelName == name
  {
    var prefix := lines[..|lines| - 1];
    var line := lines[|lines| - 1];
    var entries := Pass1(prefix).value;
    Pass1Unique(prefix);
    if line.opcode != "" && line.labelName == name {
      assert lines[|lines| - 1].labelName == name;
    } else {
      if line.opcode != "" && line.labelName != "" {
        DefineLabelSpec(entries, line.labelName, |Ops(prefix)|, name);
      }
      Pass1OnlyDefines(prefix, name);
      var i :| 0 <= i < |prefix| && prefix[i].opcode != "" && prefix[i].labelName == name;
      assert lines[i] == prefix[i];
    }
  }

  /** A label defined on two lines with opcodes fails pass 1, so the
      assembly stops before any word is written. */
  lemma {:induction false} DuplicateFails(lines: seq<Line>, i: nat, j: nat)
    requires i < j < |lines| < TWO31
    requires lines[i].opcode != "" && lines[j].opcode != ""
    requires lines[i].labelName == lines[j].labelName != ""
    ensures Pass1(lines).Err?
    ensures Assembly(lines).Failed? && Assembly(lines).written == []
  {
    DuplicatePass1(lines, i, j);
  }

  lemma {:induction false} DuplicatePass1(lines: seq<Line>, i: nat, j: nat)
    requires i < j < |lines| < TWO31
    requires lines[i].opcode != "" && lines[j].opcode != ""
    requires lines[i].labelName == lines[j].labelName != ""
    ensures Pass1(lines).Err?
  {
    var pre := lines[..j + 1];
    var prefix := lines[..j];
    assert pre[..j] == prefix;
    if Pass1(prefix).Ok? {
      assert pre[..j] == prefix && pre[j] == lines[j] && prefix[i] == lines[i];
      Pass1Address(prefix, i);
      assert Pass1(pre).Err?;
    } else {
      Pass1ErrorPersists(pre, j);
    }
    Pass1ErrorPersists(lines, j + 1);
  }

  /** Without an error, word `k` written is the k-th translation. */
  lemma {:induction false} EmitAt(results: seq<Result<Int32, AsmError>>, k: nat)
    requires Emit(results).error.None?
    requires k < |results|
    ensures |Emit(results).words| == |results|
    ensures results[k] == Ok(Emit(results).words[k])
  {
    var prefix := results[..|results| - 1];
    EmitLength(prefix);
    if k < |prefix| {
      EmitAt(prefix, k);
    }
  }

  lemma {:induction false} EmitLength(results: seq<Result<Int32, AsmError>>)
    requires Emit(results).error.None?
    ensures |Emit(results).words| == |results|
  {
    if |results| > 0 {
      EmitLength(results[..|results| - 1]);
    }
  }

  /** On an error, what was written is the translations before the first
      failing one, which is the error reported. */
  lemma {:induction false} EmitFailure(results: seq<Result<Int32, AsmError>>)
    requires Emit(results).error.Some?
    ensures
      var out := Emit(results);
      var j := |out.words|;
      && j < |results| && results[j] == Err(out.error.value)
      && forall k :: 0 <= k < j ==> results[k] == Ok(out.words[k])
  {
    var prefix := results[..|results| - 1];
    if Emit(prefix).error.Some? {
      EmitFailure(prefix);
    } else {
      EmitLength(prefix);
      forall k | 0 <= k < |prefix|
        ensures results[k] == Ok(Emit(results).words[k])
      {
        EmitAt(prefix, k);
      }
    }
  }

  /** Pass 2 without error writes exactly one word per line with an opcode,
      in order: the k-th is that line translated at address k. */
  lemma Pass2Emits(entries: seq<Symbol>, lines: seq<Line>)
    requires Pass2(entries, lines).error.None?
    ensures |Pass2(entries, lines).words| == |Ops(lines)|
    ensures forall k :: 0 <= k < |Ops(lines)| ==>
      TranslateLine(entries, k, Ops(lines)[k]) == Ok(Pass2(entries, lines).words[k])
  {
    var results := Translations(entries, Ops(lines));
    EmitLength(results);
    forall k | 0 <= k < |Ops(lines)|
      ensures TranslateLine(entries, k, Ops(lines)[k]) == Ok(Pass2(entries, lines).words[k])
    {
      EmitAt(results, k);
    }
  }

  /** A successful assembly writes one word per line with an opcode. */
  lemma AssembledWords(lines: seq<Line>)
    requires |lines| < TWO31
    requires Assembly(lines).Assembled?
    ensures |Assembly(lines).words| == |Ops(lines)|
    ensures forall k :: 0 <= k < |Ops(lines)| ==>
      TranslateLine(Pass1(lines).value, k, Ops(lines)[k]) == Ok(Assembly(lines).words[k])
  {
    Pass2Emits(Pass1(lines).value, lines);
  }
}
