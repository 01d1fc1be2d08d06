// The virtual machine as it runs: registers, stack and counters updated in place, one handler per
// opcode, and the loop around them.

module Processors {
  import opened Ast
  import opened Bytecode
  import opened Disassembler
  import opened VirtualMachine

  class StackBuffer {
    var bytes: array<Byte>
    var index: nat

    ghost predicate Valid()
      reads this
    {
      index <= bytes.Length
    }

    function Value(): Stack
      requires Valid()
      reads this, bytes
    {
      ByteStack(bytes[..], index)
    }

    constructor (initial: nat)
      ensures Valid() && fresh(bytes) && Value() == ByteStack(Zeros(initial), 0)
    {
      var cells := new Byte[initial](i => 0);
      bytes := cells;
      index := 0;
      assert cells[..] == Zeros(initial);
    }

    method CheckRealloc()
      requires Valid()
      modifies this`bytes
      ensures Valid() && (bytes == old(bytes) || fresh(bytes))
      ensures Value() == Roomy(old(Value())) && index < bytes.Length
    {
      if index >= bytes.Length {
        var bigger := new Byte[bytes.Length + 50](i => 0);
        forall i | 0 <= i < bytes.Length { bigger[i] := bytes[i]; }
        assert bigger[..] == bytes[..] + Zeros(50);
        bytes := bigger;
      }
    }

    method PushByte(b: Byte)
      requires Valid()
      modifies this, bytes
      ensures Valid() && (bytes == old(bytes) || fresh(bytes))
      ensures Value() == Pushed(old(Value()), b)
    {
      CheckRealloc();
      ghost var roomy := Value();
      bytes[index] := b;
      index := index + 1;
      assert bytes[..] == roomy.cells[roomy.index := b];
    }

    /** No byte comes from an empty stack: the source ends the process there. */
    method PopByte() returns (b: Option<Byte>)
      requires Valid()
      modifies this`index
      ensures Valid()
      ensures match Popped(old(Value()))
              case None => b == None && Value() == old(Value())
              case Some((top, rest)) => b == Some(top) && Value() == rest
    {
      if index == 0 {
        b := None;
      } else {
        index := index - 1;
        b := Some(bytes[index]);
      }
    }
  }

  class Processor {
    const code: Code
    const base: nat
    const registers: array<Qword>
    const stack: StackBuffer
    var exitCode: Byte
    var events: seq<Event>

    ghost predicate Valid()
      reads this, code, stack
    {
      && code.Valid() && stack.Valid()
      && registers.Length == 12
      && stack.bytes != code.bytes
    }

    function Value(): State
      requires Valid()
      reads this, code, stack, stack.bytes, registers
    {
      State(registers[..], stack.Value(), exitCode, events)
    }

    constructor (code: Code, base: nat)
      requires code.Valid()
      ensures Valid() && this.code == code && this.base == base
      ensures fresh(registers) && fresh(stack) && fresh(stack.bytes)
      ensures Value() == State(seq(12, i => 0), ByteStack(Zeros(4096), 0), 0, [])
    {
      this.code := code;
      this.base := base;
      var cells := new Qword[12](i => 0);
      registers := cells;
      stack := new StackBuffer(4096);
      exitCode := 0;
      events := [];
      new;
      assert registers[..] == seq(12, i => 0);
    }

    method PushRB(ip: nat) returns (next: Next)
      requires Valid() && registers[IP] == ip && base <= ip < base + code.size && code.Contents()[ip - base] == 6
      modifies this, stack, stack.bytes, registers
      ensures Valid() && (stack.bytes == old(stack.bytes) || fresh(stack.bytes))
      ensures (Value(), next) == Handle(code.Contents(), base, old(Value()))
    {
      var id := code.GetByte(ip + 1 - base);
      if id.None? { return Failing(OutsideProgram); }
      if id.value >= 12 { return Failing(InvalidRegister(id.value)); }
      stack.PushByte(registers[id.value] % 256);
      next := At(Wrapped(ip + 2));
    }

    method PopRB(ip: nat) returns (next: Next)
      requires Valid() && registers[IP] == ip && base <= ip < base + code.size && code.Contents()[ip - base] == 7
      modifies this, stack, registers
      ensures Valid() && stack.bytes == old(stack.bytes)
      ensures (Value(), next) == Handle(code.Contents(), base, old(Value()))
    {
      var id := code.GetByte(ip + 1 - base);
      if id.None? { return Failing(OutsideProgram); }
      if id.value >= 12 { return Failing(InvalidRegister(id.value)); }
      var b := stack.PopByte();
      if b.None? { return Failing(EmptyStack); }
      registers[id.value] := b.value;
      next := At(Wrapped(ip + 2));
    }

    method MovIR(ip: nat) returns (next: Next)
      requires Valid() && registers[IP] == ip && base <= ip < base + code.size && code.Contents()[ip - base] == 2
      modifies registers
      ensures Valid()
      ensures (Value(), next) == Handle(code.Contents(), base, old(Value()))
    {
      hide QwordAt, Wrapped;
      var id := code.GetByte(ip + 1 - base);
      if id.None? { return Failing(OutsideProgram); }
      if id.value >= 12 { return Failing(InvalidRegister(id.value)); }
      var q := code.GetQword(Wrapped(ip + 2 - registers[IS]));
      if q.None? { return Failing(OutsideProgram); }
      registers[id.value] := q.value;
      next := At(Wrapped(ip + 10));
    }

    method AddRR(ip: nat) returns (next: Next)
      requires Valid() && registers[IP] == ip && base <= ip < base + code.size && code.Contents()[ip - base] == 3
      modifies registers
      ensures Valid()
      ensures (Value(), next) == Handle(code.Contents(), base, old(Value()))
    {
      var id1 := code.GetByte(ip + 1 - base);
      var id2 := code.GetByte(ip + 2 - base);
      if id1.None? || id2.None? { return Failing(OutsideProgram); }
      if id1.value >= 12 { return Failing(InvalidRegister(id1.value)); }
      if id2.value >= 12 { return Failing(InvalidRegister(id2.value)); }
      registers[id1.value] := Sum(registers[id1.value], registers[id2.value]);
      next := At(Wrapped(ip + 3));
    }

    method RegDump()
      requires Valid()
      modifies this
      ensures Valid() && Value() == old(Value()).(events := old(events) + [RegistersShown(registers[..])])
    {
      events := events + [RegistersShown(registers[..])];
    }

    method StackDump()
      requires Valid()
      modifies this
      ensures Valid()
      ensures Value() == old(Value()).(events := old(events) + [StackShown(stack.index, Window(stack.Value()))])
    {
      var start := if stack.index < 10 then 0 else stack.index - 10;
      var shown: seq<Byte> := [];
      var c := 0;
      while c < stack.bytes.Length && c < 10
        invariant c <= 10 && start + c <= stack.bytes.Length
        invariant shown == stack.bytes[start..start + c]
        decreases 10 - c
      {
        shown := shown + [stack.bytes[start + c]];
        c := c + 1;
      }
      events := events + [StackShown(stack.index, shown)];
    }

    method SystemCalled() returns (next: Next)
      requires Valid()
      modifies this
      ensures Valid()
      ensures (Value(), next) == SystemCall(old(Value()))
    {
      next := Following;
      match registers[0] {
        case 0 => exitCode := registers[1] % 256;
        case 1 => RegDump();
        case 2 => StackDump();
        case 3 =>
          if registers[1] > 3 { return Failing(InvalidType(registers[1])); }
          events := events + [Printed(registers[1], if registers[1] == 3 then registers[2] % 256 else registers[2])];
        case _ => next := Failing(InvalidSyscall(registers[0]));
      }
    }

    method InstructionExec(op: Byte) returns (next: Next)
      requires Valid() && base <= registers[IP] < base + code.size && op == code.Contents()[registers[IP] - base]
      modifies this, stack, stack.bytes, registers
      ensures Valid() && (stack.bytes == old(stack.bytes) || fresh(stack.bytes))
      ensures (Value(), next) == Handle(code.Contents(), base, old(Value()))
    {
      next := Following;
      match op {
        case 0 =>
        case 1 =>
        case 2 => next := MovIR(registers[IP]);
        case 3 => next := AddRR(registers[IP]);
        case 4 => next := SystemCalled();
        case 5 => RegDump();
        case 6 => next := PushRB(registers[IP]);
        case 7 => next := PopRB(registers[IP]);
        case 8 => StackDump();
        case _ => next := Failing(InvalidOpcode(op));
      }
    }

    /** Executes the opcode `%ip` points to and moves on to where its handler leads. */
    method Round(op: Byte) returns (fault: Option<Fault>)
      requires Valid() && base <= registers[IP] < base + code.size && op == code.Contents()[registers[IP] - base]
      requires op != 1
      modifies this, stack, stack.bytes, registers
      ensures Valid() && (stack.bytes == old(stack.bytes) || fresh(stack.bytes))
      ensures Step(code.Contents(), base, old(Value()))
           == if fault.Some? then Failed(Value(), fault.value) else Running(Value())
    {
      hide Handle;
      ghost var s := Value();
      fault := None;
      var next := InstructionExec(op);
      match next {
        case Failing(f) => fault := Some(f);
        case Following =>
          registers[IP] := Sum(registers[IP], 1);
        case At(p) =>
          registers[IP] := p;
      }
    }

    /** The loop: what it returns and the state it leaves are those of the step-by-step meaning. */
    method Run() returns (o: Outcome)
      requires Valid() && 1 <= base < QWORD
      modifies this, stack, stack.bytes, registers
      ensures Valid()
      ensures o == Exec(code.Contents(), base, Started(base, old(Value())), 0)
      ensures o.state == Value()
    {
      hide Handle, Step;
      var i := 0;
      registers[IP] := base;
      registers[IS] := base;
      ghost var start := Value();
      assert start == Started(base, old(Value()));
      while registers[IP] != 0
        invariant Valid() && i < 1000
        invariant stack.bytes == old(stack.bytes) || fresh(stack.bytes)
        invariant code.Contents() == old(code.Contents())
        invariant Exec(code.Contents(), base, start, 0) == Exec(code.Contents(), base, Value(), i)
        decreases 1000 - i
      {
        OutsideSteps(code.Contents(), base, Value());
        i := i + 1;
        if i >= 1000 { return Exhausted(Value()); }
        var ip := registers[IP];
        if ip >= base + code.size { return Failed(Value(), IpOutOfRange); }
        if ip < base { return Failed(Value(), OutsideProgram); }
        var op := code.bytes[ip - base];
        if op == 1 { return Halted(Value()); }
        var fault := Round(op);
        if fault.Some? { return Failed(Value(), fault.value); }
      }
      o := Halted(Value());
    }
  }

  /** The rounds that execute nothing. */
  lemma OutsideSteps(code: seq<Byte>, base: nat, s: State)
    ensures s.regs[IP] >= base + |code| ==> Step(code, base, s) == Failed(s, IpOutOfRange)
    ensures s.regs[IP] < base ==> Step(code, base, s) == Failed(s, OutsideProgram)
    ensures base <= s.regs[IP] < base + |code| && code[s.regs[IP] - base] == 1 ==> Step(code, base, s) == Halted(s)
  {
    hide Handle;
  }

  /**
   * Loads a file, lists it and runs it. A listing that breaks off ends the process, so that only
   * code that is a list of instructions is ever run.
   */
  method ProcessFile(stream: seq<Byte>, base: Qword) returns (listing: Listing, o: Option<Outcome>)
    requires 1 <= base
    ensures listing == Sweep(ShebangStripped(stream), 0)
    ensures o.Some? <==> listing.stopped.None?
    ensures o.Some? ==> o.value == Exec(ShebangStripped(stream), base, Started(base, Fresh()), 0)
  {
    hide Sweep, Exec;
    var code := new Code.FromFile(stream);
    listing := Disassemble(code);
    if listing.stopped.Some? { return listing, None; }
    var processor := new Processor(code, base);
    assert code.Contents() == ShebangStripped(stream);
    var end := processor.Run();
    o := Some(end);
  }

  /** The registers, the stack and the exit code a process starts with. */
  function Fresh(): State {
    State(seq(12, i => 0), ByteStack(Zeros(4096), 0), 0, [])
  }

  /**
   * A program behind a shebang line that ends in one line break is run as its instructions say,
   * up to the first that stops, from whatever address it was loaded at.
   */
  lemma ScriptRuns(line: seq<Byte>, program: seq<Instruction>, base: Qword)
    requires LF !in line && CR !in line
    requires Loaded(Encode(program), base)
    ensures var code := ShebangStripped([HASH, BANG] + line + [LF] + Encode(program));
            && Sweep(code, 0) == Listing(LinesOf(program, 0), None)
            && Exec(code, base, Started(base, Fresh()), 0) == FoldIn(code, base, 0, program, Started(base, Fresh()), 999)
            && (MovsBeforeIs(program, false) || Anchored(program, Started(base, Fresh()), base, 999) ==>
                  Exec(code, base, Started(base, Fresh()), 0) == Fold(program, Started(base, Fresh()), 999))
  {
    hide Sweep, Exec, Fold, FoldIn, Encode, LinesOf, MovsBeforeIs, Anchored, ShebangStripped;
    ShebangInvisible(line, program);
    WellFormedCodes(Encode(program));
    RunningAnyProgram(program, base, Fresh());
    if MovsBeforeIs(program, false) || Anchored(program, Started(base, Fresh()), base, 999) {
      RunningAProgram(program, base, Fresh());
    }
  }
}
