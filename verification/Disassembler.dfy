// The disassembler: one sweep over the code, guided by the operand tables alone.

module Disassembler {
  import opened Ast
  import opened Bytecode

  datatype Operand = Reg(id: Register) | Imm(size: nat, value: nat)

  /** One printed line: where the instruction starts, its opcode and its operands. */
  datatype Line = Line(at: nat, op: Byte, operands: seq<Operand>)

  datatype Trouble = UnknownOpcode | UnknownRegister | CutShort

  /** The lines printed, and where and why the sweep gave up, if it did. */
  datatype Listing = Listing(lines: seq<Line>, stopped: Option<(nat, Trouble)>)

  datatype Reading = Read(operand: Operand) | Unreadable

  function ReadOperand(code: seq<Byte>, info: OperandInfo, at: nat): Reading
    requires at + info.size <= |code|
    requires info.mode.FromRegister? ==> info.size == 1
  {
    if info.mode.FromRegister? then
      if code[at] < 12 then Read(Reg(code[at])) else Unreadable
    else Read(Imm(info.size, Number(code[at..at + info.size])))
  }

  /** The operands the tables announce for the opcode at `at`. */
  function ReadOperands(code: seq<Byte>, at: nat): Option<seq<Operand>>
    requires at < |code| && code[at] < OPCODES && at + SizeOf(code[at]) <= |code|
  {
    var (first, second) := OperandTable(code[at]);
    if first.size == 0 then Some([])
    else
      match ReadOperand(code, first, at + 1)
      case Unreadable => None
      case Read(a) =>
        if second.size == 0 then Some([a])
        else
          match ReadOperand(code, second, at + 1 + first.size)
          case Unreadable => None
          case Read(b) => Some([a, b])
  }

  /** What the sweep makes of the bytes at `at`: a line, or the reason to stop. */
  datatype Glance = Shown(line: Line) | Stopped(why: Trouble)

  function Look(code: seq<Byte>, at: nat): (g: Glance)
    requires at < |code|
    ensures g.Shown? ==> g.line.at == at && g.line.op == code[at]
  {
    if code[at] >= OPCODES then Stopped(UnknownOpcode)
    else if at + SizeOf(code[at]) > |code| then Stopped(CutShort)
    else
      match ReadOperands(code, at)
      case None => Stopped(UnknownRegister)
      case Some(operands) => Shown(Line(at, code[at], operands))
  }

  function Sweep(code: seq<Byte>, at: nat): Listing
    decreases |code| - at
  {
    if at >= |code| then Listing([], None)
    else
      match Look(code, at)
      case Stopped(why) => Listing([], Some((at, why)))
      case Shown(line) =>
        var rest := Sweep(code, at + SizeOf(code[at]));
        Listing([line] + rest.lines, rest.stopped)
  }

  /** The offsets at which the sweep looks for an instruction. */
  function Offsets(l: Listing): seq<nat> {
    LineOffsets(l.lines) + if l.stopped.Some? then [l.stopped.value.0] else []
  }

  function LineOffsets(lines: seq<Line>): seq<nat> {
    if lines == [] then [] else [lines[0].at] + LineOffsets(lines[1..])
  }

  // ---------------------------------------------------------------- The sweep inverts the encoding

  function OperandsShown(i: Instruction): seq<Operand> {
    match i
    case Mov(reg, value) => [Reg(reg), Imm(8, value)]
    case Add(to, from) => [Reg(to), Reg(from)]
    case Push(reg) => [Reg(reg)]
    case Pop(reg) => [Reg(reg)]
    case _ => []
  }

  function LineOf(i: Instruction, at: nat): Line {
    Line(at, OpcodeOf(i), OperandsShown(i))
  }

  function LinesOf(program: seq<Instruction>, at: nat): seq<Line> {
    if program == [] then []
    else [LineOf(program[0], at)] + LinesOf(program[1..], at + |EncodeOne(program[0])|)
  }

  /** The code holds the encoding of `i` at `at`. */
  predicate Holds(code: seq<Byte>, at: nat, i: Instruction) {
    at + |EncodeOne(i)| <= |code| && code[at..at + |EncodeOne(i)|] == EncodeOne(i)
  }

  /** Every instruction is shown with the operands it was encoded from. */
  lemma LookReads(code: seq<Byte>, at: nat, i: Instruction)
    requires Holds(code, at, i)
    ensures at < |code| && SizeOf(code[at]) == |EncodeOne(i)| && Look(code, at) == Shown(LineOf(i, at))
  {
    hide LittleEndian, Number, Power;
    var bytes := EncodeOne(i);
    assert forall k :: 0 <= k < |bytes| ==> code[at + k] == bytes[k];
    assert code[at] == bytes[0] == OpcodeOf(i);
    match i {
      case Mov(reg, value) =>
        assert bytes[1] == code[at + 1];
        assert code[at + 2..at + 10] == LittleEndian(value, 8);
        EightBytes();
        NumberReadBack(value, 8);
      case Add(to, from) =>
        assert bytes[1] == code[at + 1] && bytes[2] == code[at + 2];
      case Push(reg) => assert bytes[1] == code[at + 1];
      case Pop(reg) => assert bytes[1] == code[at + 1];
      case _ =>
    }
  }

  /** A line shows the operands in the order of their bytes, an immediate with its lowest byte first. */
  lemma OperandsInOrder(code: seq<Byte>, at: nat)
    requires at < |code| && Look(code, at).Shown?
    ensures var shown := Look(code, at).line.operands;
            match code[at]
            case 2 => at + 10 <= |code| && code[at + 1] < 12
                      && shown == [Reg(code[at + 1]), Imm(8, Number(code[at + 2..at + 10]))]
            case 3 => at + 3 <= |code| && code[at + 1] < 12 && code[at + 2] < 12
                      && shown == [Reg(code[at + 1]), Reg(code[at + 2])]
            case 6 => at + 2 <= |code| && code[at + 1] < 12 && shown == [Reg(code[at + 1])]
            case 7 => at + 2 <= |code| && code[at + 1] < 12 && shown == [Reg(code[at + 1])]
            case _ => code[at] <= 8 && shown == []
  {
  }

  /** The instruction a line stands for. */
  function Decoded(code: seq<Byte>, at: nat): (i: Instruction)
    requires at < |code| && Look(code, at).Shown?
  {
    match code[at]
    case 0 => NoOp
    case 1 => Halt
    case 2 => Mov(code[at + 1], QwordAt(code, at + 2))
    case 3 => Add(code[at + 1], code[at + 2])
    case 4 => Syscall
    case 5 => DumpRegisters
    case 6 => Push(code[at + 1])
    case 7 => Pop(code[at + 1])
    case _ => DumpStack
  }

  /** Whatever the sweep shows is the encoding of some instruction. */
  lemma ShownIsEncoded(code: seq<Byte>, at: nat)
    requires at < |code| && Look(code, at).Shown?
    ensures Holds(code, at, Decoded(code, at))
  {
    var i := Decoded(code, at);
    assert code[at] == OpcodeOf(i);
    if i.Mov? {
      BytesReadBack(code[at + 2..at + 10]);
      assert code[at..at + 10] == [code[at], code[at + 1]] + code[at + 2..at + 10];
    }
  }

  /** Disassembling an encoded program shows its instructions, each at its own offset. */
  lemma {:induction false} SweepReadsBack(before: seq<Byte>, program: seq<Instruction>)
    ensures Sweep(before + Encode(program), |before|) == Listing(LinesOf(program, |before|), None)
    decreases |program|
  {
    hide EncodeOne, SizeOf, OpcodeOf, Look, LineOf;
    if program != [] {
      var code, one := before + Encode(program), EncodeOne(program[0]);
      assert code == before + one + Encode(program[1..]);
      assert Holds(code, |before|, program[0]) by { hide Encode; }
      LookReads(code, |before|, program[0]);
      SweepReadsBack(before + one, program[1..]);
    }
  }

  lemma {:induction false} SweepDecodes(code: seq<Byte>, at: nat) returns (program: seq<Instruction>)
    requires at <= |code| && Sweep(code, at).stopped.None?
    ensures code[at..] == Encode(program)
    decreases |code| - at
  {
    hide EncodeOne, SizeOf, OpcodeOf, Look, Decoded;
    if at == |code| {
      return [];
    }
    var i := Decoded(code, at);
    ShownIsEncoded(code, at);
    LookReads(code, at, i);
    var rest := SweepDecodes(code, at + SizeOf(code[at]));
    program := [i] + rest;
    assert code[at..] == code[at..at + |EncodeOne(i)|] + code[at + |EncodeOne(i)|..];
  }

  /** Up to where it gives up, the sweep lists a program. */
  lemma {:induction false} SweepListsPrefix(code: seq<Byte>, at: nat) returns (program: seq<Instruction>)
    requires at <= |code| && Sweep(code, at).stopped.Some?
    ensures var (end, why) := Sweep(code, at).stopped.value;
            && at <= end < |code| && Look(code, end) == Stopped(why)
            && code[at..end] == Encode(program) && Sweep(code, at).lines == LinesOf(program, at)
    decreases |code| - at
  {
    hide EncodeOne, SizeOf, OpcodeOf, Look, Decoded, LineOf;
    if Look(code, at).Stopped? {
      return [];
    }
    var i := Decoded(code, at);
    ShownIsEncoded(code, at);
    LookReads(code, at, i);
    var rest := SweepListsPrefix(code, at + SizeOf(code[at]));
    program := [i] + rest;
    var end := Sweep(code, at).stopped.value.0;
    assert code[at..end] == code[at..at + |EncodeOne(i)|] + code[at + |EncodeOne(i)|..end];
  }

  /**
   * A listing that breaks off lists the program that the bytes before encode, and gives up at bytes
   * that are no instruction: at a number that is no opcode, an instruction that the code is too
   * short for, or a number that is no register.
   */
  lemma BrokenListing(code: seq<Byte>) returns (program: seq<Instruction>)
    requires Sweep(code, 0).stopped.Some?
    ensures var (at, why) := Sweep(code, 0).stopped.value;
            && at < |code| && code[..at] == Encode(program) && Sweep(code, 0).lines == LinesOf(program, 0)
            && (forall i :: !Holds(code, at, i))
            && match why
               case UnknownOpcode => code[at] > 8
               case CutShort =>
                 code[at] <= 8 && at + (if code[at] == 2 then 10 else if code[at] == 3 then 3 else 2) > |code|
               case UnknownRegister =>
                 && code[at] in {2, 3, 6, 7} && at + 1 < |code|
                 && (code[at + 1] >= 12 || (code[at] == 3 && at + 2 < |code| && code[at + 2] >= 12))
  {
    hide Encode, LinesOf, Holds;
    program := SweepListsPrefix(code, 0);
    var at := Sweep(code, 0).stopped.value.0;
    assert code[0..at] == code[..at];
    forall i | Holds(code, at, i)
      ensures false
    {
      LookReads(code, at, i);
    }
  }

  /**
   * The well-formed codes are exactly the encoded programs, each of a single program: the sweep
   * runs through to the end if and only if there is a program, and it lists that program.
   */
  lemma WellFormedCodes(code: seq<Byte>)
    ensures Sweep(code, 0).stopped.None? <==> exists program :: Encode(program) == code
    ensures forall program :: Encode(program) == code ==> Sweep(code, 0) == Listing(LinesOf(program, 0), None)
  {
    if Sweep(code, 0).stopped.None? {
      var program := SweepDecodes(code, 0);
      assert code[0..] == code;
      assert Encode(program) == code;
    }
    forall program | Encode(program) == code
      ensures Sweep(code, 0) == Listing(LinesOf(program, 0), None)
    {
      SweepReadsBack([], program);
      assert [] + code == code;
    }
  }

  /** Two different programs have different codes. */
  lemma {:induction false} EncodingInjective(p: seq<Instruction>, q: seq<Instruction>)
    requires Encode(p) == Encode(q)
    ensures p == q
    decreases |p|
  {
    WellFormedCodes(Encode(p));
    LinesInjective(p, q, 0);
  }

  lemma {:induction false} LinesInjective(p: seq<Instruction>, q: seq<Instruction>, at: nat)
    requires LinesOf(p, at) == LinesOf(q, at)
    ensures p == q
    decreases |p|
  {
    if p != [] && q != [] {
      var ps, qs := LinesOf(p, at), LinesOf(q, at);
      assert ps[0] == qs[0] && ps[1..] == qs[1..];
      SameInstruction(p[0], q[0], at);
      LinesInjective(p[1..], q[1..], at + |EncodeOne(p[0])|);
      assert p == [p[0]] + p[1..] && q == [q[0]] + q[1..];
    }
  }

  lemma SameInstruction(a: Instruction, b: Instruction, at: nat)
    requires LineOf(a, at) == LineOf(b, at)
    ensures a == b
  {
    assert OperandsShown(a) == OperandsShown(b);
    if |OperandsShown(a)| > 0 { assert OperandsShown(a)[0] == OperandsShown(b)[0]; }
    if |OperandsShown(a)| > 1 { assert OperandsShown(a)[1] == OperandsShown(b)[1]; }
  }

  // ---------------------------------------------------------------- The sweep itself

  method DisassembleOperand(code: Code, info: OperandInfo, at: nat) returns (r: Reading)
    requires code.Valid() && at + info.size <= code.size
    requires (info.mode.FromRegister? && info.size == 1) || (info.mode.Immediate? && info.size == 8)
    ensures r == ReadOperand(code.Contents(), info, at)
  {
    if info.mode.FromRegister? {
      var b := code.GetByte(at);
      r := if b.value < 12 then Read(Reg(b.value)) else Unreadable;
    } else {
      var q := code.GetQword(at);
      r := Read(Imm(8, q.value));
    }
  }

  /** Counts the size of a printed operand down while moving past it. */
  method Past(i: nat, size: nat) returns (j: nat)
    ensures j == i + size
  {
    var left := size;
    j := i;
    while left > 0
      invariant j + left == i + size
    {
      left, j := left - 1, j + 1;
    }
  }

  /** Shows the operands of the opcode at `at`, and ends on the instruction's last byte. */
  method DisassembleOperands(code: Code, at: nat) returns (operands: Option<seq<Operand>>, last: nat)
    requires code.Valid() && at < code.size
    requires code.Contents()[at] < OPCODES && at + SizeOf(code.Contents()[at]) <= code.size
    ensures operands == ReadOperands(code.Contents(), at)
    ensures operands.Some? ==> last + 1 == at + SizeOf(code.Contents()[at])
  {
    hide ReadOperand;
    var (first, second) := OperandTable(code.bytes[at]);
    var i := at + 1;
    operands := Some([]);
    if first.size > 0 {
      var a := DisassembleOperand(code, first, i);
      if a.Unreadable? { return None, i; }
      operands := Some([a.operand]);
      i := Past(i, first.size);
    }
    if second.size > 0 {
      var b := DisassembleOperand(code, second, i);
      if b.Unreadable? { return None, i; }
      assert operands.value + [b.operand] == [operands.value[0], b.operand];
      operands := Some(operands.value + [b.operand]);
      i := Past(i, second.size);
    }
    last := i - 1;
  }

  method Disassemble(code: Code) returns (listing: Listing)
    requires code.Valid()
    ensures listing == Sweep(code.Contents(), 0)
  {
    hide SizeOf, ReadOperands, OperandTable, Sweep, Look;
    var lines: seq<Line> := [];
    var i := 0;
    while i < code.size
      invariant Sweep(code.Contents(), 0) == After(lines, Sweep(code.Contents(), i))
      decreases code.size - i
    {
      SweepStep(code.Contents(), i, lines);
      var at, op, size := i, code.bytes[i], SizeOf(code.bytes[i]);
      if op >= OPCODES { return Listing(lines, Some((at, UnknownOpcode))); }
      if at + size > code.size { return Listing(lines, Some((at, CutShort))); }
      var operands := Some([]);
      if size >= 2 {
        operands, i := DisassembleOperands(code, at);
        if operands.None? { return Listing(lines, Some((at, UnknownRegister))); }
      } else {
        NoOperands(code.Contents(), at);
      }
      lines := lines + [Line(at, op, operands.value)];
      i := i + 1;
    }
    SweepStep(code.Contents(), i, lines);
    return Listing(lines, None);
  }

  /** A listing with lines printed before it. */
  function After(lines: seq<Line>, l: Listing): Listing {
    Listing(lines + l.lines, l.stopped)
  }

  lemma SweepStep(code: seq<Byte>, at: nat, lines: seq<Line>)
    ensures at >= |code| ==> After(lines, Sweep(code, at)) == Listing(lines, None)
    ensures at < |code| ==> After(lines, Sweep(code, at)) ==
                              if code[at] >= OPCODES then Listing(lines, Some((at, UnknownOpcode)))
                              else if at + SizeOf(code[at]) > |code| then Listing(lines, Some((at, CutShort)))
                              else if ReadOperands(code, at).None? then Listing(lines, Some((at, UnknownRegister)))
                              else After(lines + [Line(at, code[at], ReadOperands(code, at).value)],
                                         Sweep(code, at + SizeOf(code[at])))
  {
    hide SizeOf, ReadOperands, OperandTable;
  }

  lemma NoOperands(code: seq<Byte>, at: nat)
    requires at < |code| && code[at] < OPCODES && SizeOf(code[at]) < 2 && at + SizeOf(code[at]) <= |code|
    ensures ReadOperands(code, at) == Some([])
  {
  }
}
