/**
  The loose LC-2K assembler (assembler/assemble.c), an earlier variant of
  the strict one that validates nothing.

  Pass 1 gives every line the next address, blank or not, appends its label
  to the label list without checking it, and for a `.fill` line appends the
  directive's value to a separate data list, if that value is known by then.
  Pass 2 writes one word per line: a `.fill` line's word comes from the data
  list, under the line's own label; any other line is translated with the
  line's label standing in for its first operand. A missing symbol reads as
  the sentinel NOEXIST.
*/
module LooseAssembler {
  import opened Wrappers
  import opened Isa
  import opened Numeral
  import S = StrictAssembler

  type Line = S.Line
  type Symbol = S.Symbol

  /** `NOEXIST`, the constant 0xF0000000 stored in a signed `word_t`. */
  const NOEXIST: Int32 := -0x1000_0000

  // ------------------------------------------------------------------
  // The symbol lists as values

  /** `__readSymbol` on a list: the word of the first entry named `name`,
      or NOEXIST when there is none. */
  function Lookup(entries: seq<Symbol>, name: string): (w: Int32)
    ensures (forall i :: 0 <= i < |entries| ==> entries[i].name != name) ==> w == NOEXIST
  {
    match S.Find(entries, name)
    case Some(sym) => sym.word
    case None => NOEXIST
  }

  /** A later entry with the same name is shadowed by the first one. */
  lemma {:induction false} LookupFirst(entries: seq<Symbol>, i: nat)
    requires i < |entries|
    requires forall j :: 0 <= j < i ==> entries[j].name != entries[i].name
    ensures Lookup(entries, entries[i].name) == entries[i].word
  {
    if i > 0 {
      assert entries[0].name != entries[i].name;
      assert entries[1..][i - 1] == entries[i];
      forall j | 0 <= j < i - 1
        ensures entries[1..][j].name != entries[i].name
      {
        assert entries[1..][j] == entries[j + 1];
      }
      LookupFirst(entries[1..], i - 1);
    }
  }

  /** What `addData` looks up for a `.fill` operand: a number, or the
      address of a label entered so far. */
  function DataWord(labels: seq<Symbol>, arg: string): (w: Int32)
    ensures IsNumber(arg) ==> w == Atoi(arg)
    ensures !IsNumber(arg) && S.Find(labels, arg).Some? ==> w == S.Find(labels, arg).value.word
    ensures !IsNumber(arg) && S.Find(labels, arg).None? ==> w == NOEXIST
  {
    if IsNumber(arg) then Atoi(arg) else Lookup(labels, arg)
  }

  /** `addData` on the data list: the entry is added only when its word is
      not NOEXIST. */
  function AddEntry(labels: seq<Symbol>, data: seq<Symbol>, name: string, arg: string): (r: seq<Symbol>)
    ensures IsNumber(arg) && Atoi(arg) != NOEXIST ==> r == data + [S.Symbol(name, Atoi(arg))]
    ensures IsNumber(arg) && Atoi(arg) == NOEXIST ==> r == data
    ensures !IsNumber(arg) && S.Find(labels, arg).Some? && S.Find(labels, arg).value.word != NOEXIST ==>
      r == data + [S.Symbol(name, S.Find(labels, arg).value.word)]
    ensures !IsNumber(arg) && S.Find(labels, arg).Some? && S.Find(labels, arg).value.word == NOEXIST ==>
      r == data
    ensures !IsNumber(arg) && S.Find(labels, arg).None? ==> r == data
  {
    var w := DataWord(labels, arg);
    if w != NOEXIST then data + [S.Symbol(name, w)] else data
  }

  /** Every label entry is named and holds one of the first `n` addresses. */
  ghost predicate LabelsWithin(labels: seq<Symbol>, n: int)
  {
    forall k :: 0 <= k < |labels| ==> labels[k].name != "" && 0 <= labels[k].word < n
  }

  /** Every data entry is named and holds a word other than NOEXIST. */
  ghost predicate DataKnown(data: seq<Symbol>)
  {
    forall k :: 0 <= k < |data| ==> data[k].name != "" && data[k].word != NOEXIST
  }

  /** The label list `label0` and the data list `data0`. */
  datatype Tables = Tables(labels: seq<Symbol>, data: seq<Symbol>)

  // ------------------------------------------------------------------
  // Pass 1 as a value

  /** Pass 1 over `lines`: line k has address k, and each labelled line
      enters its label, then, for `.fill`, its data word. */
  function Pass1(lines: seq<Line>): (t: Tables)
    requires |lines| < TWO31
    ensures |t.labels| <= |lines| && |t.data| <= |t.labels|
    ensures LabelsWithin(t.labels, |lines|)
    ensures DataKnown(t.data)
  {
    if |lines| == 0 then Tables([], [])
    else
      var t := Pass1(lines[..|lines| - 1]);
      var line := lines[|lines| - 1];
      if line.labelName == "" then t
      else
        var labels := t.labels + [S.Symbol(line.labelName, |lines| - 1)];
        if line.opcode == ".fill" then Tables(labels, AddEntry(labels, t.data, line.labelName, line.arg0))
        else Tables(labels, t.data)
  }

  lemma Pass1Step(lines: seq<Line>, i: nat)
    requires i < |lines| < TWO31
    ensures var t := Pass1(lines[..i]); var line := lines[i];
      var labels := t.labels + [S.Symbol(line.labelName, i)];
      Pass1(lines[..i + 1]) ==
        if line.labelName == "" then t
        else if line.opcode == ".fill" then Tables(labels, AddEntry(labels, t.data, line.labelName, line.arg0))
        else Tables(labels, t.data)
  {
    assert lines[..i + 1][..i] == lines[..i];
  }

  /** The first line labelled `name`, counting every line, blank or not. */
  function FirstLine(lines: seq<Line>, name: string): (r: Option<nat>)
    ensures r.Some? ==>
      r.value < |lines| && lines[r.value].labelName == name &&
      forall j :: 0 <= j < r.value ==> lines[j].labelName != name
    ensures r.None? ==> forall j :: 0 <= j < |lines| ==> lines[j].labelName != name
  {
    if |lines| == 0 then None
    else if lines[0].labelName == name then Some(0)
    else
      match FirstLine(lines[1..], name)
      case None => None
      case Some(k) => Some(k + 1)
  }

  /** The first line labelled `name` among the lines up to and including the last. */
  lemma FirstLineLast(lines: seq<Line>, name: string)
    requires |lines| > 0
    ensures var prefix := lines[..|lines| - 1];
      FirstLine(lines, name) ==
        if FirstLine(prefix, name).Some? then FirstLine(prefix, name)
        else if lines[|lines| - 1].labelName == name then Some(|lines| - 1)
        else None
  {
    var prefix := lines[..|lines| - 1];
    var r := FirstLine(lines, name);
    var p := FirstLine(prefix, name);
    assert forall j :: 0 <= j < |prefix| ==> prefix[j] == lines[j];
    if p.Some? {
      assert lines[p.value].labelName == name;
    } else if r.Some? {
      assert r.value == |lines| - 1;
    }
  }

  /** The label list resolves a name to the address of its first
      definition, counting blank lines too; a name that no line defines, and
      the empty name, read as NOEXIST. No label is checked, so duplicates
      are kept but shadowed. */
  lemma {:induction false} LabelTable(lines: seq<Line>, name: string)
    requires |lines| < TWO31
    ensures S.Find(Pass1(lines).labels, name) ==
      if name != "" && FirstLine(lines, name).Some? then Some(S.Symbol(name, FirstLine(lines, name).value)) else None
    ensures Lookup(Pass1(lines).labels, name) ==
      if name != "" && FirstLine(lines, name).Some? then FirstLine(lines, name).value else NOEXIST
  {
    if |lines| > 0 {
      var prefix := lines[..|lines| - 1];
      var line := lines[|lines| - 1];
      LabelTable(prefix, name);
      FirstLineLast(lines, name);
      if line.labelName != "" {
        S.FindAppend(Pass1(prefix).labels, S.Symbol(line.labelName, |lines| - 1), name);
      }
    }
  }

  /** Lines from `i` on that do not carry `name` as their label leave its
      data entry as it was. */
  lemma {:induction false} DataStable(lines: seq<Line>, i: nat, name: string)
    requires i <= |lines| < TWO31
    requires forall j :: i <= j < |lines| ==> lines[j].labelName != name
    ensures S.Find(Pass1(lines).data, name) == S.Find(Pass1(lines[..i]).data, name)
    decreases |lines| - i
  {
    if i < |lines| {
      var prefix := lines[..|lines| - 1];
      var line := lines[|lines| - 1];
      assert prefix[..i] == lines[..i];
      DataStable(prefix, i, name);
      if line.labelName != "" && line.opcode == ".fill" {
        var labels := Pass1(prefix).labels + [S.Symbol(line.labelName, |lines| - 1)];
        var w := DataWord(labels, line.arg0);
        if w != NOEXIST {
          S.FindAppend(Pass1(prefix).data, S.Symbol(line.labelName, w), name);
        }
      }
    } else {
      assert lines[..i] == lines;
    }
  }

  // ------------------------------------------------------------------
  // Translation

  /** A register operand: `atoi` stored into a 3-bit field keeps its low 3 bits. */
  function RegField(tok: string): (r: int)
    ensures 0 <= r < 8 && (r - Atoi(tok)) % 8 == 0
  {
    Atoi(tok) % 8
  }

  /** The 16-bit offset field of an I-type word: a number, or a label's
      address, made relative to the next instruction for `beq`; `None`
      when the label does not exist. */
  function Offset(labels: seq<Symbol>, pc: int, opcode: string, arg: string): (r: Option<int>)
    ensures r.Some? ==> 0 <= r.value < TWO16
    ensures IsNumber(arg) ==> r == Some(Atoi(arg) % TWO16)
    ensures !IsNumber(arg) ==> (r.None? <==> Lookup(labels, arg) == NOEXIST)
    ensures !IsNumber(arg) && r.Some? ==>
      var target := Lookup(labels, arg);
      r.value == (if opcode == "beq" then target - pc - 1 else target) % TWO16
  {
    if IsNumber(arg) then Some(Atoi(arg) % TWO16)
    else
      var sym := Lookup(labels, arg);
      if sym == NOEXIST then None
      else Some((if opcode == "beq" then sym - pc - 1 else sym) % TWO16)
  }

  /** `translate`: the format of the mnemonic decides the fields; bits 25-31
      and the unused fields are 0, and an I-type word whose label does not
      exist is 0 altogether. The word built for a name that is not a
      mnemonic is left uninitialised by the C code: `None`. */
  function Translate(labels: seq<Symbol>, pc: int, opcode: string,
                     arg0: string, arg1: string, arg2: string): (r: Option<Int32>)
    ensures r.Some? <==> FindMnemonic(opcode).Some?
    ensures r.Some? ==> 0 <= r.value < 0x200_0000
  {
    match FindMnemonic(opcode)
    case None => None
    case Some(e) =>
      S.EntryOpcode(e);
      match e.format
      case RType => Some(Encode(e.opcode, RegField(arg0), RegField(arg1), RegField(arg2)))
      case IType =>
        (match Offset(labels, pc, opcode, arg2)
         case None => Some(0)
         case Some(low) => Some(Encode(e.opcode, RegField(arg0), RegField(arg1), low)))
      case JType => Some(Encode(e.opcode, RegField(arg0), RegField(arg1), 0))
      case OType => Some(Encode(e.opcode, 0, 0, 0))
  }

  /** Read back with the simulators' accessors, a translated word gives the
      mnemonic's opcode and the low bits of its operands in their fields,
      and every field the format does not use is 0. */
  lemma TranslateDecodes(labels: seq<Symbol>, pc: int, opcode: string,
                         arg0: string, arg1: string, arg2: string)
    ensures Translate(labels, pc, opcode, arg0, arg1, arg2).None? <==> FindMnemonic(opcode).None?
    ensures FindMnemonic(opcode).Some? ==>
      var w := Translate(labels, pc, opcode, arg0, arg1, arg2).value;
      var e := FindMnemonic(opcode).value;
      match e.format
      case RType =>
        S.PacksTo(w, e.opcode, RegField(arg0), RegField(arg1), RegField(arg2)) && DestReg(w) == RegField(arg2)
      case IType =>
        (Offset(labels, pc, opcode, arg2).None? ==> w == 0) &&
        (Offset(labels, pc, opcode, arg2).Some? ==>
           S.PacksTo(w, e.opcode, RegField(arg0), RegField(arg1), Offset(labels, pc, opcode, arg2).value))
      case JType => S.PacksTo(w, e.opcode, RegField(arg0), RegField(arg1), 0)
      case OType => S.PacksTo(w, e.opcode, 0, 0, 0)
  {
    if FindMnemonic(opcode).Some? {
      var e := FindMnemonic(opcode).value;
      S.EntryOpcode(e);
      match e.format
      case RType =>
        S.EncodePacks(e.opcode, RegField(arg0), RegField(arg1), RegField(arg2));
        DecodeEncode(e.opcode, RegField(arg0), RegField(arg1), RegField(arg2));
      case IType =>
        if Offset(labels, pc, opcode, arg2).Some? {
          S.EncodePacks(e.opcode, RegField(arg0), RegField(arg1), Offset(labels, pc, opcode, arg2).value);
        }
      case JType => S.EncodePacks(e.opcode, RegField(arg0), RegField(arg1), 0);
      case OType => S.EncodePacks(e.opcode, 0, 0, 0);
    }
  }

  /** The simulators sign-extend the offset field back to the number written
      or the label's (relative) address whenever that fits in 16 bits, and
      to a value congruent to it modulo 2^16 in any case. */
  lemma OffsetReadsBack(labels: seq<Symbol>, pc: int, opcode: string, arg: string)
    requires Offset(labels, pc, opcode, arg).Some?
    ensures var intended :=
        if IsNumber(arg) then Atoi(arg) as int
        else if opcode == "beq" then Lookup(labels, arg) - pc - 1
        else Lookup(labels, arg);
      var back := ConvertNum(Offset(labels, pc, opcode, arg).value);
      && (back - intended) % TWO16 == 0
      && (MININT16 <= intended <= MAXINT16 ==> back == intended)
  {
    var intended :=
      if IsNumber(arg) then Atoi(arg) as int
      else if opcode == "beq" then Lookup(labels, arg) - pc - 1
      else Lookup(labels, arg);
    assert Offset(labels, pc, opcode, arg).value == intended % TWO16;
    if MININT16 <= intended <= MAXINT16 {
      ConvertNumInverse(intended);
    }
  }

  // ------------------------------------------------------------------
  // Pass 2 as a value

  /** The word pass 2 prints for line `pc`. `.fill` reads the data list
      under the line's own label; an instruction gets the line's label as
      its first operand. */
  function LineWord(t: Tables, pc: int, line: Line): (r: Option<Int32>)
    ensures line.opcode == ".fill" ==> r == Some(Lookup(t.data, line.labelName))
    ensures line.opcode != ".fill" ==> (r.Some? <==> FindMnemonic(line.opcode).Some?)
    ensures line.opcode != ".fill" && r.Some? ==> 0 <= r.value < 0x200_0000
  {
    if line.opcode == ".fill" then Some(Lookup(t.data, line.labelName))
    else Translate(t.labels, pc, line.opcode, line.labelName, line.arg1, line.arg2)
  }

  /** `f` applied to every line and its address, in order. */
  function MapLines<X>(f: (nat, Line) -> X, lines: seq<Line>): (ys: seq<X>)
    ensures |ys| == |lines|
  {
    if |lines| == 0 then []
    else MapLines(f, lines[..|lines| - 1]) + [f(|lines| - 1, lines[|lines| - 1])]
  }

  /** Entry k of the map is `f` of line k at address k. */
  lemma {:induction false} MapLinesAt<X>(f: (nat, Line) -> X, lines: seq<Line>, k: nat)
    requires k < |lines|
    ensures MapLines(f, lines)[k] == f(k, lines[k])
  {
    var n := |lines|;
    var prefix := lines[..n - 1];
    if k < n - 1 {
      assert prefix[k] == lines[k];
      MapLinesAt(f, prefix, k);
    }
  }

  /** The word of a line at a given address, as a function value. */
  function Emit(t: Tables): (nat, Line) -> Option<Int32>
  {
    (pc: nat, line: Line) => LineWord(t, pc, line)
  }

  /** Pass 2: one word per line, blank lines included. */
  function Pass2(t: Tables, lines: seq<Line>): (words: seq<Option<Int32>>)
    ensures |words| == |lines|
  {
    MapLines(Emit(t), lines)
  }

  /** Pass 2 over one more line appends that line's word. */
  lemma {:induction false} Pass2Step(t: Tables, lines: seq<Line>, i: nat)
    requires i < |lines|
    ensures Pass2(t, lines[..i + 1]) == Pass2(t, lines[..i]) + [LineWord(t, i, lines[i])]
  {
    assert lines[..i + 1][..i] == lines[..i];
  }

  /** Word k of pass 2 is the word of line k, at address k. */
  lemma {:induction false} Pass2At(t: Tables, lines: seq<Line>, k: nat)
    requires k < |lines|
    ensures Pass2(t, lines)[k] == LineWord(t, k, lines[k])
  {
    MapLinesAt(Emit(t), lines, k);
  }

  /** The output of the whole assembly, one entry per line. */
  function Assembly(lines: seq<Line>): (words: seq<Option<Int32>>)
    requires |lines| < TWO31
    ensures |words| == |lines|
  {
    Pass2(Pass1(lines), lines)
  }

  /** A `.fill` line whose label no other line carries assembles to its
      number, or else to the address of the label named by its operand if
      that label is defined on this line or an earlier one, and otherwise,
      for a forward reference, to NOEXIST. */
  lemma {:induction false} FillWord(lines: seq<Line>, k: nat)
    requires k < |lines| < TWO31
    requires lines[k].opcode == ".fill" && lines[k].labelName != ""
    requires forall j :: 0 <= j < |lines| && j != k ==> lines[j].labelName != lines[k].labelName
    ensures var arg := lines[k].arg0; var seen := FirstLine(lines[..k + 1], arg);
      Assembly(lines)[k] == Some(
        if IsNumber(arg) then Atoi(arg)
        else if arg != "" && seen.Some? then seen.value
        else NOEXIST)
  {
    Pass2At(Pass1(lines), lines, k);
    var upto := lines[..k + 1];
    FillEntry(lines, k);
    Pass1Step(lines, k);
    if !IsNumber(lines[k].arg0) {
      LabelTable(upto, lines[k].arg0);
    }
  }

  /** The data entry of a `.fill` line whose label no other line carries is
      the word its operand had when pass 1 reached that line. */
  lemma {:induction false} FillEntry(lines: seq<Line>, k: nat)
    requires k < |lines| < TWO31
    requires lines[k].opcode == ".fill" && lines[k].labelName != ""
    requires forall j :: 0 <= j < |lines| && j != k ==> lines[j].labelName != lines[k].labelName
    ensures Lookup(Pass1(lines).data, lines[k].labelName) ==
      DataWord(Pass1(lines[..k + 1]).labels, lines[k].arg0)
  {
    var name := lines[k].labelName;
    var upto := lines[..k + 1];
    assert upto[..k] == lines[..k];
    assert forall j :: 0 <= j < k ==> upto[..k][j] == lines[j];
    DataStable(upto[..k], 0, name);
    DataStable(lines, k + 1, name);
    Pass1Step(lines, k);
    var t := Pass1(lines[..k]);
    var labels := t.labels + [S.Symbol(name, k)];
    assert Pass1(upto).labels == labels;
    var w := DataWord(labels, lines[k].arg0);
    if w != NOEXIST {
      S.FindAppend(t.data, S.Symbol(name, w), name);
    }
  }

  /** A `.fill` line without a label assembles to NOEXIST: nothing is ever
      entered in the data list under the empty name. */
  lemma {:induction false} FillWithoutLabel(lines: seq<Line>, k: nat)
    requires k < |lines| < TWO31
    requires lines[k].opcode == ".fill" && lines[k].labelName == ""
    ensures Assembly(lines)[k] == Some(NOEXIST)
  {
    Pass2At(Pass1(lines), lines, k);
    NoUnnamedData(lines);
  }

  /** Only labelled lines make data entries. */
  lemma {:induction false} NoUnnamedData(lines: seq<Line>)
    requires |lines| < TWO31
    ensures S.Find(Pass1(lines).data, "").None?
  {
    if |lines| > 0 {
      var prefix := lines[..|lines| - 1];
      var line := lines[|lines| - 1];
      NoUnnamedData(prefix);
      if line.labelName != "" && line.opcode == ".fill" {
        var labels := Pass1(prefix).labels + [S.Symbol(line.labelName, |lines| - 1)];
        var w := DataWord(labels, line.arg0);
        if w != NOEXIST {
          S.FindAppend(Pass1(prefix).data, S.Symbol(line.labelName, w), "");
        }
      }
    }
  }

  /** A `beq` whose offset names a label lands on the first line with that
      label, when the distance fits in 16 bits: the simulators branch to
      pc + 1 + the sign-extended field. Its regA is the line's label read as
      a number. */
  lemma {:induction false} BranchLandsOnLabel(lines: seq<Line>, i: nat, target: nat)
    requires i < |lines| < TWO31
    requires var l := lines[i]; l.opcode == "beq" && !IsNumber(l.arg2) && l.arg2 != ""
    requires FirstLine(lines, lines[i].arg2) == Some(target)
    requires MININT16 <= target - i - 1 <= MAXINT16
    ensures var w := Assembly(lines)[i];
      && w.Some? && OpBits(w.value) == BEQ
      && Field0(w.value) == RegField(lines[i].labelName)
      && Field1(w.value) == RegField(lines[i].arg1)
      && i + 1 + ConvertNum(Field2(w.value)) == target
  {
    var l := lines[i];
    var t := Pass1(lines);
    LabelTable(lines, l.arg2);
    assert Lookup(t.labels, l.arg2) == target;
    var low := Offset(t.labels, i, l.opcode, l.arg2).value;
    OffsetReadsBack(t.labels, i, l.opcode, l.arg2);
    assert ConvertNum(low) == target - i - 1;
    FindBeq();
    Pass2At(t, lines, i);
    assert Assembly(lines)[i] == Translate(t.labels, i, "beq", l.labelName, l.arg1, l.arg2);
    assert Assembly(lines)[i] == Some(Encode(BEQ, RegField(l.labelName), RegField(l.arg1), low));
    DecodeEncode(BEQ, RegField(l.labelName), RegField(l.arg1), low);
  }

  // ------------------------------------------------------------------
  // The lists and the two loops of `main`

  datatype SymType = LabelList | DataList

  /** The global lists `label0` and `data0`. */
  class SymbolLists {
    var labels: seq<Symbol>
    var data: seq<Symbol>

    constructor ()
      ensures labels == [] && data == []
    {
      labels := [];
      data := [];
    }

    /** `__addSymbol`: link a new entry at the end of the chosen list. */
    method AddSymbol(name: string, word: Int32, kind: SymType)
      modifies this
      ensures kind == LabelList ==> labels == old(labels) + [S.Symbol(name, word)] && data == old(data)
      ensures kind == DataList ==> data == old(data) + [S.Symbol(name, word)] && labels == old(labels)
    {
      if kind == LabelList {
        labels := labels + [S.Symbol(name, word)];
      } else {
        data := data + [S.Symbol(name, word)];
      }
    }

    /** `__readSymbol`: walk the chosen list from its head to the first
        equal name. */
    method ReadSymbol(name: string, kind: SymType) returns (word: Int32)
      ensures word == Lookup(if kind == LabelList then labels else data, name)
    {
      var entries := if kind == LabelList then labels else data;
      var i := 0;
      while i < |entries|
        invariant 0 <= i <= |entries|
        invariant S.Find(entries[i..], name) == S.Find(entries, name)
      {
        assert entries[i..][1..] == entries[i + 1..];
        if entries[i].name == name {
          return entries[i].word;
        }
        i := i + 1;
      }
      return NOEXIST;
    }

    method AddLabel(name: string, word: Int32)
      modifies this
      ensures labels == old(labels) + [S.Symbol(name, word)] && data == old(data)
    {
      AddSymbol(name, word, LabelList);
    }

    /** `addData`: the word of a `.fill` operand, entered only when it is not
        NOEXIST; `added` is whether an entry was made. */
    method AddData(name: string, arg: string) returns (added: bool)
      modifies this
      ensures labels == old(labels) && data == AddEntry(old(labels), old(data), name, arg)
      ensures added <==> DataWord(old(labels), arg) != NOEXIST
    {
      var word;
      if IsNumber(arg) {
        word := Atoi(arg);
      } else {
        word := ReadSymbol(arg, LabelList);
      }
      added := word != NOEXIST;
      if added {
        AddSymbol(name, word, DataList);
      }
    }

    method ReadLabel(name: string) returns (word: Int32)
      ensures word == Lookup(labels, name)
    {
      word := ReadSymbol(name, LabelList);
    }

    method ReadData(name: string) returns (word: Int32)
      ensures word == Lookup(data, name)
    {
      word := ReadSymbol(name, DataList);
    }
  }

  /** The first loop of `main`. */
  method FirstPass(lists: SymbolLists, lines: seq<Line>)
    requires |lines| < TWO31
    requires lists.labels == [] && lists.data == []
    modifies lists
    ensures Tables(lists.labels, lists.data) == Pass1(lines)
  {
    var pc := 0;
    while pc < |lines|
      invariant 0 <= pc <= |lines|
      invariant Tables(lists.labels, lists.data) == Pass1(lines[..pc])
    {
      var line := lines[pc];
      Pass1Step(lines, pc);
      if line.labelName != "" {
        lists.AddLabel(line.labelName, pc);
        if line.opcode == ".fill" {
          var _ := lists.AddData(line.labelName, line.arg0);
        }
      }
      pc := pc + 1;
    }
    assert lines[..pc] == lines;
  }

  /** The second loop of `main`: the word for each line, in order. */
  method SecondPass(lists: SymbolLists, lines: seq<Line>) returns (words: seq<Option<Int32>>)
    ensures words == Pass2(Tables(lists.labels, lists.data), lines)
  {
    words := [];
    var pc := 0;
    while pc < |lines|
      invariant 0 <= pc <= |lines|
      invariant words == Pass2(Tables(lists.labels, lists.data), lines[..pc])
    {
      var line := lines[pc];
      Pass2Step(Tables(lists.labels, lists.data), lines, pc);
      var w: Option<Int32>;
      if line.opcode == ".fill" {
        var word := lists.ReadData(line.labelName);
        w := Some(word);
      } else {
        w := Translate(lists.labels, pc, line.opcode, line.labelName, line.arg1, line.arg2);
      }
      words := words + [w];
      pc := pc + 1;
    }
    assert lines[..pc] == lines;
  }

  /** `main` on the lines of the source file. */
  method Assemble(lines: seq<Line>) returns (words: seq<Option<Int32>>)
    requires |lines| < TWO31
    ensures words == Assembly(lines)
  {
    var lists := new SymbolLists();
    FirstPass(lists, lines);
    words := SecondPass(lists, lines);
  }
}
