// The bytecode format of the virtual machine: instructions, their encoding, and the growing buffer
// the push functions write to.

module Bytecode {
  import opened Ast

  type Byte = x: int | 0 <= x < 256
  type Qword = x: int | 0 <= x < QWORD
  type Register = x: int | 0 <= x < 12

  const QWORD: int := 0x1_0000_0000_0000_0000
  const IP: Register := 10
  const IS: Register := 11
  const OPCODES: nat := 9

  datatype Instruction =
    | NoOp
    | Halt
    | Mov(reg: Register, value: Qword)
    | Add(to: Register, from: Register)
    | Syscall
    | DumpRegisters
    | Push(reg: Register)
    | Pop(reg: Register)
    | DumpStack

  // ---------------------------------------------------------------- Little-endian numbers

  function Power(n: nat): (p: nat)
    ensures p > 0
  {
    if n == 0 then 1 else 256 * Power(n - 1)
  }

  /** The `n` low bytes of `v`, lowest first: what copying the number to memory leaves there. */
  function LittleEndian(v: nat, n: nat): (bytes: seq<Byte>)
    ensures |bytes| == n
  {
    if n == 0 then [] else [v % 256] + LittleEndian(v / 256, n - 1)
  }

  function Number(bytes: seq<Byte>): nat {
    if bytes == [] then 0 else bytes[0] + 256 * Number(bytes[1..])
  }

  /** Reading back what was written gives the number, when it fits the width. */
  lemma {:induction false} NumberReadBack(v: nat, n: nat)
    requires v < Power(n)
    ensures Number(LittleEndian(v, n)) == v
  {
    if n > 0 {
      NumberReadBack(v / 256, n - 1);
      assert LittleEndian(v, n)[1..] == LittleEndian(v / 256, n - 1);
    }
  }

  /** Writing back what was read gives the bytes, and the number fits the width. */
  lemma {:induction false} BytesReadBack(bytes: seq<Byte>)
    ensures Number(bytes) < Power(|bytes|)
    ensures LittleEndian(Number(bytes), |bytes|) == bytes
  {
    if bytes != [] {
      var low, high := bytes[0], Number(bytes[1..]);
      BytesReadBack(bytes[1..]);
      assert (low + 256 * high) % 256 == low && (low + 256 * high) / 256 == high;
    }
  }

  lemma EightBytes()
    ensures Power(8) == QWORD
  {
    assert Power(4) == 256 * 256 * 256 * 256;
    assert Power(8) == 256 * 256 * 256 * 256 * Power(4);
  }

  function QwordAt(code: seq<Byte>, at: nat): (v: Qword)
    requires at + 8 <= |code|
  {
    BytesReadBack(code[at..at + 8]);
    EightBytes();
    Number(code[at..at + 8])
  }

  // ---------------------------------------------------------------- The operand tables

  datatype Mode = Nothing | Immediate | FromRegister
  datatype OperandInfo = OperandInfo(size: nat, mode: Mode)

  function OperandTable(op: Byte): (OperandInfo, OperandInfo)
    requires op < OPCODES
  {
    match op
    case 2 => (OperandInfo(1, FromRegister), OperandInfo(8, Immediate))
    case 3 => (OperandInfo(1, FromRegister), OperandInfo(1, FromRegister))
    case 6 => (OperandInfo(1, FromRegister), OperandInfo(0, Nothing))
    case 7 => (OperandInfo(1, FromRegister), OperandInfo(0, Nothing))
    case _ => (OperandInfo(0, Nothing), OperandInfo(0, Nothing))
  }

  function SizeOf(op: Byte): (size: nat)
    ensures 1 <= size <= 10
  {
    if op >= OPCODES then 1
    else OperandTable(op).0.size + OperandTable(op).1.size + 1
  }

  // ---------------------------------------------------------------- The encoding

  function OpcodeOf(i: Instruction): (op: Byte)
    ensures op < OPCODES
  {
    match i
    case NoOp => 0
    case Halt => 1
    case Mov(_, _) => 2
    case Add(_, _) => 3
    case Syscall => 4
    case DumpRegisters => 5
    case Push(_) => 6
    case Pop(_) => 7
    case DumpStack => 8
  }

  function Operands(i: Instruction): (bytes: seq<Byte>)
    ensures 1 + |bytes| == SizeOf(OpcodeOf(i))
  {
    match i
    case Mov(reg, value) => [reg] + LittleEndian(value, 8)
    case Add(to, from) => [to, from]
    case Push(reg) => [reg]
    case Pop(reg) => [reg]
    case _ => []
  }

  function EncodeOne(i: Instruction): (bytes: seq<Byte>)
    ensures |bytes| == SizeOf(OpcodeOf(i))
  {
    [OpcodeOf(i)] + Operands(i)
  }

  function Encode(program: seq<Instruction>): seq<Byte> {
    if program == [] then [] else EncodeOne(program[0]) + Encode(program[1..])
  }

  lemma {:induction false} EncodeAppend(a: seq<Instruction>, b: seq<Instruction>)
    ensures Encode(a + b) == Encode(a) + Encode(b)
  {
    hide EncodeOne, SizeOf, OpcodeOf;
    if a == [] {
      assert a + b == b;
    } else {
      EncodeAppend(a[1..], b);
      assert (a + b)[1..] == a[1..] + b;
    }
  }

  // ---------------------------------------------------------------- The buffer

  /** The capacity one push finds: the check makes room for one byte, whatever is pushed. */
  function Checked(size: nat, cap: nat): nat {
    if size >= cap then cap + 20 else cap
  }

  /** The capacity after all the pushes of a program, if each of them stayed inside the buffer. */
  function Emitted(program: seq<Instruction>, size: nat, cap: nat): Option<nat>
    decreases |program|
  {
    if program == [] then Some(cap)
    else
      var after := EmittedOne(program[0], size, cap);
      if after.None? then None
      else Emitted(program[1..], size + |EncodeOne(program[0])|, after.value)
  }

  function EmittedOne(i: Instruction, size: nat, cap: nat): Option<nat> {
    var cap1 := Checked(size, cap);
    match |EncodeOne(i)|
    case 1 => Some(cap1)
    case 2 => Some(Checked(size + 1, cap1))
    case 3 => Some(Checked(size + 2, Checked(size + 1, cap1)))
    case _ =>
      var cap3 := Checked(size + 2, Checked(size + 1, cap1));
      if size + 10 <= cap3 then Some(cap3) else None
  }

  /** No immediate starts where the byte-sized check leaves too little room. */
  predicate MovsPlaced(program: seq<Instruction>, offset: nat) {
    program == []
    || ((program[0].Mov? ==> !(1 <= offset % 20 <= 7))
        && MovsPlaced(program[1..], offset + |EncodeOne(program[0])|))
  }

  ghost predicate Capacity(size: nat, cap: nat) {
    cap % 20 == 10 && size <= cap < size + 20
  }

  lemma OneFits(i: Instruction, size: nat, cap: nat)
    requires Capacity(size, cap)
    ensures EmittedOne(i, size, cap).Some? <==> (i.Mov? ==> !(1 <= size % 20 <= 7))
    ensures EmittedOne(i, size, cap).Some? ==> Capacity(size + |EncodeOne(i)|, EmittedOne(i, size, cap).value)
  {
    assert |EncodeOne(i)| == 10 <==> i.Mov?;
  }

  /**
   * Starting from an empty buffer of the initial capacity, or anywhere the pushes lead, a program
   * can be emitted exactly when none of its immediates needs more room than a byte.
   */
  lemma {:induction false} EmitsExactlyWhenPlaced(program: seq<Instruction>, size: nat, cap: nat)
    requires Capacity(size, cap)
    ensures Emitted(program, size, cap).Some? <==> MovsPlaced(program, size)
    decreases |program|
  {
    if program != [] {
      OneFits(program[0], size, cap);
      if EmittedOne(program[0], size, cap).Some? {
        EmitsExactlyWhenPlaced(program[1..], size + |EncodeOne(program[0])|, EmittedOne(program[0], size, cap).value);
      }
    }
  }

  class Code {
    var bytes: array<Byte>
    var size: nat

    ghost predicate Valid()
      reads this
    {
      size <= bytes.Length
    }

    ghost function Contents(): seq<Byte>
      requires Valid()
      reads this, bytes
    {
      bytes[..size]
    }

    constructor ()
      ensures Valid() && fresh(bytes) && Contents() == [] && bytes.Length == 10
    {
      bytes := new Byte[10](_ => 0);
      size := 0;
    }

    /** Takes a file's bytes, less the first line when it is a `#!` line. */
    constructor FromFile(stream: seq<Byte>)
      ensures Valid() && fresh(bytes) && Contents() == ShebangStripped(stream)
    {
      var start := 0;
      if |stream| > 2 && stream[0] == HASH && stream[1] == BANG {
        ghost var rest := AfterLine(stream);
        while start < |stream|
          invariant start <= |stream|
          invariant AfterLine(stream[start..]) == rest
        {
          start := start + 1;
          if stream[start - 1] == LF || stream[start - 1] == CR {
            break;
          }
          assert stream[start - 1..][1..] == stream[start..];
        }
        assert stream[start..] == rest by {
          if start > 0 { assert stream[start - 1..][1..] == stream[start..]; }
        }
      }
      var code := stream[start..];
      var copy := new Byte[|code|](i requires 0 <= i < |code| => code[i]);
      bytes := copy;
      size := |code|;
      assert copy[..|code|] == code;
    }

    method CheckRealloc()
      requires Valid()
      modifies this`bytes
      ensures Valid() && Contents() == old(Contents())
      ensures bytes.Length == Checked(size, old(bytes.Length))
      ensures bytes == old(bytes) || fresh(bytes)
    {
      if size >= bytes.Length {
        var bigger := new Byte[bytes.Length + 20](_ => 0);
        forall i | 0 <= i < bytes.Length { bigger[i] := bytes[i]; }
        bytes := bigger;
      }
    }

    method PushByte(b: Byte)
      requires Valid()
      modifies this, bytes
      ensures Valid() && (bytes == old(bytes) || fresh(bytes))
      ensures Contents() == old(Contents()) + [b]
      ensures bytes.Length == Checked(old(size), old(bytes.Length))
    {
      CheckRealloc();
      bytes[size] := b;
      size := size + 1;
    }

    lemma CopiedBehind(before: seq<Byte>, after: seq<Byte>, n: nat, copy: seq<Byte>)
      requires |before| == |after| && n + |copy| <= |after|
      requires forall i :: 0 <= i < n ==> after[i] == before[i]
      requires forall i :: 0 <= i < |copy| ==> after[n + i] == copy[i]
      ensures after[..n + |copy|] == before[..n] + copy
    {
      assert forall j :: n <= j < n + |copy| ==> after[j] == after[n + (j - n)];
    }

    /** Writes the eight bytes, unless they do not fit the buffer that the one-byte check left. */
    method PushQword(q: Qword) returns (fits: bool)
      requires Valid()
      modifies this, bytes
      ensures Valid() && (bytes == old(bytes) || fresh(bytes))
      ensures fits == (old(size) + 8 <= Checked(old(size), old(bytes.Length)))
      ensures Contents() == old(Contents()) + if fits then LittleEndian(q, 8) else []
      ensures bytes.Length == Checked(old(size), old(bytes.Length))
    {
      hide LittleEndian;
      CheckRealloc();
      fits := size + 8 <= bytes.Length;
      if fits {
        var copy := LittleEndian(q, 8);
        ghost var before := bytes[..];
        forall i | 0 <= i < 8 { bytes[size + i] := copy[i]; }
        CopiedBehind(before, bytes[..], size, copy);
        size := size + 8;
        assert bytes[..size] == bytes[..][..size];
      }
    }

    method GetByte(at: nat) returns (b: Option<Byte>)
      requires Valid()
      ensures b == if at < size then Some(Contents()[at]) else None
    {
      b := if at < size then Some(bytes[at]) else None;
    }

    method GetQword(at: nat) returns (q: Option<Qword>)
      requires Valid()
      ensures q == if at + 7 < size then Some(QwordAt(Contents(), at)) else None
    {
      if at + 7 < size {
        assert bytes[at..at + 8] == Contents()[at..at + 8];
        BytesReadBack(bytes[at..at + 8]);
        EightBytes();
        q := Some(Number(bytes[at..at + 8]));
      } else {
        q := None;
      }
    }

    /** A program written with the push functions is its encoding, if every push stayed inside the buffer. */
    method Emit(program: seq<Instruction>) returns (fits: bool)
      requires Valid()
      modifies this, bytes
      ensures Valid() && (bytes == old(bytes) || fresh(bytes))
      ensures fits == Emitted(program, old(size), old(bytes.Length)).Some?
      ensures fits ==> Contents() == old(Contents()) + Encode(program)
    {
      hide EmittedOne, EncodeOne, SizeOf, OpcodeOf;
      var k := 0;
      fits := true;
      while k < |program|
        invariant k <= |program| && Valid() && fits
        invariant bytes == old(bytes) || fresh(bytes)
        invariant Contents() == old(Contents()) + Encode(program[..k])
        invariant Emitted(program, old(size), old(bytes.Length)) == Emitted(program[k..], size, bytes.Length)
      {
        assert program[k..][0] == program[k] && program[k..][1..] == program[k + 1..];
        EncodeAppend(program[..k], [program[k]]);
        assert program[..k] + [program[k]] == program[..k + 1];
        assert Encode([program[k]]) == EncodeOne(program[k]);
        fits := EmitOne(program[k]);
        if !fits { return; }
        k := k + 1;
      }
      assert program[..k] == program;
    }

    method EmitOne(i: Instruction) returns (fits: bool)
      requires Valid()
      modifies this, bytes
      ensures Valid() && (bytes == old(bytes) || fresh(bytes))
      ensures fits == EmittedOne(i, old(size), old(bytes.Length)).Some?
      ensures fits ==> Contents() == old(Contents()) + EncodeOne(i)
      ensures fits ==> bytes.Length == EmittedOne(i, old(size), old(bytes.Length)).value
    {
      hide LittleEndian, Number, Power, Checked;
      fits := true;
      match i {
        case Mov(reg, value) => fits := EmitMov(reg, value);
        case Add(to, from) =>
          PushByte(OpcodeOf(i));
          PushByte(to);
          PushByte(from);
          assert Contents() == old(Contents()) + EncodeOne(i);
        case Push(reg) => EmitPair(OpcodeOf(i), reg);
        case Pop(reg) => EmitPair(OpcodeOf(i), reg);
        case _ => PushByte(OpcodeOf(i));
      }
    }

    method EmitPair(op: Byte, reg: Register)
      requires Valid()
      modifies this, bytes
      ensures Valid() && (bytes == old(bytes) || fresh(bytes))
      ensures Contents() == old(Contents()) + ([op] + [reg])
      ensures bytes.Length == Checked(old(size) + 1, Checked(old(size), old(bytes.Length)))
    {
      hide Checked;
      PushByte(op);
      PushByte(reg);
    }

    method EmitMov(reg: Register, value: Qword) returns (fits: bool)
      requires Valid()
      modifies this, bytes
      ensures Valid() && (bytes == old(bytes) || fresh(bytes))
      ensures fits == EmittedOne(Mov(reg, value), old(size), old(bytes.Length)).Some?
      ensures fits ==> Contents() == old(Contents()) + EncodeOne(Mov(reg, value))
      ensures fits ==> bytes.Length == EmittedOne(Mov(reg, value), old(size), old(bytes.Length)).value
    {
      hide LittleEndian, Number, Power, Checked;
      EmitPair(OpcodeOf(Mov(reg, value)), reg);
      fits := PushQword(value);
      assert EncodeOne(Mov(reg, value)) == [OpcodeOf(Mov(reg, value))] + [reg] + LittleEndian(value, 8);
    }
  }

  // ---------------------------------------------------------------- Loading a file

  const HASH: Byte := 35
  const BANG: Byte := 33
  const LF: Byte := 10
  const CR: Byte := 13

  /** What follows the first line break. */
  function AfterLine(stream: seq<Byte>): seq<Byte> {
    if stream == [] then []
    else if stream[0] == LF || stream[0] == CR then stream[1..]
    else AfterLine(stream[1..])
  }

  function ShebangStripped(stream: seq<Byte>): seq<Byte> {
    if |stream| > 2 && stream[0] == HASH && stream[1] == BANG then AfterLine(stream) else stream
  }

  /**
   * A shebang line in front of a program is invisible to the machine when it ends in one line
   * break. After a CR LF pair the LF stays, and it is not an opcode.
   */
  lemma {:induction false} ShebangInvisible(line: seq<Byte>, program: seq<Instruction>)
    requires LF !in line && CR !in line
    ensures ShebangStripped([HASH, BANG] + line + [LF] + Encode(program)) == Encode(program)
    ensures ShebangStripped([HASH, BANG] + line + [CR, LF] + Encode(program)) == [LF] + Encode(program)
    ensures ShebangStripped(Encode(program)) == Encode(program)
    ensures LF >= OPCODES
  {
    LineSkipped([HASH, BANG] + line, LF, Encode(program));
    LineSkipped([HASH, BANG] + line, CR, [LF] + Encode(program));
    assert [HASH, BANG] + line + [CR] + ([LF] + Encode(program)) == [HASH, BANG] + line + [CR, LF] + Encode(program);
    if program != [] { assert Encode(program)[0] == OpcodeOf(program[0]); }
  }

  lemma {:induction false} LineSkipped(line: seq<Byte>, end: Byte, rest: seq<Byte>)
    requires LF !in line && CR !in line
    requires end == LF || end == CR
    ensures AfterLine(line + [end] + rest) == rest
  {
    if line == [] {
      assert line + [end] + rest == [end] + rest;
    } else {
      LineSkipped(line[1..], end, rest);
      assert (line + [end] + rest)[1..] == line[1..] + [end] + rest;
    }
  }
}
