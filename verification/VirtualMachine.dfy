// The bytecode virtual machine: what one instruction does, how the execution loop strings them
// together, and how that compares with the instruction list the code was encoded from.

module VirtualMachine {
  import opened Ast
  import opened Bytecode
  import opened Disassembler

  type Registers = r: seq<Qword> | |r| == 12 witness seq(12, i => 0)

  function Wrapped(x: int): (q: Qword)
    ensures 0 <= x < QWORD ==> q == x
  {
    x % QWORD
  }

  function Sum(x: int, y: int): (q: Qword)
    ensures 0 <= x + y < QWORD ==> q == x + y
  {
    Wrapped(x + y)
  }

  // ---------------------------------------------------------------- The byte stack

  /** The allocated cells; those below `index` are on the stack, the others keep what was popped. */
  datatype ByteStack = ByteStack(cells: seq<Byte>, index: nat)
  type Stack = s: ByteStack | s.index <= |s.cells| witness ByteStack([], 0)

  function Zeros(n: nat): (z: seq<Byte>)
    ensures |z| == n
  {
    seq(n, i => 0)
  }

  function Roomy(s: Stack): Stack {
    if s.index >= |s.cells| then s.(cells := s.cells + Zeros(50)) else s
  }

  function Pushed(s: Stack, b: Byte): (r: Stack) {
    var t := Roomy(s);
    ByteStack(t.cells[s.index := b], s.index + 1)
  }

  function Popped(s: Stack): Option<(Byte, Stack)> {
    if s.index == 0 then None else Some((s.cells[s.index - 1], ByteStack(s.cells, s.index - 1)))
  }

  function Live(s: Stack): seq<Byte> {
    s.cells[..s.index]
  }

  /**
   * The cells behave as a list that grows and shrinks at its end, through any growth. A full stack
   * grows by 50 cells, and no cell but the one pushed changes.
   */
  lemma StackIsAList(s: Stack, b: Byte)
    ensures Live(Pushed(s, b)) == Live(s) + [b]
    ensures Popped(s).None? <==> Live(s) == []
    ensures Popped(s).Some? ==> Live(s) == Live(Popped(s).value.1) + [Popped(s).value.0]
    ensures Popped(Pushed(s, b)).Some? && Popped(Pushed(s, b)).value.0 == b
    ensures Live(Popped(Pushed(s, b)).value.1) == Live(s)
    ensures |Pushed(s, b).cells| == if s.index < |s.cells| then |s.cells| else |s.cells| + 50
    ensures forall i :: 0 <= i < |Pushed(s, b).cells| && i != s.index ==>
      Pushed(s, b).cells[i] == if i < |s.cells| then s.cells[i] else 0
  {
    assert Live(Pushed(s, b)) == Live(s) + [b];
  }

  /** The cells a stack dump shows: ten from the bottom, or the ten below the top. */
  function Window(s: Stack): seq<Byte> {
    var start := if s.index < 10 then 0 else s.index - 10;
    s.cells[start..if start + 10 <= |s.cells| then start + 10 else |s.cells|]
  }

  /** A dump shows nothing but cells on the stack and the ten lowest: growth never shows through. */
  lemma WindowShows(s: Stack, t: Stack)
    requires s.index == t.index && |s.cells| >= 10 && |t.cells| >= 10
    requires Live(s) == Live(t) && s.cells[..10] == t.cells[..10]
    ensures Window(s) == Window(t)
  {
    var start := if s.index < 10 then 0 else s.index - 10;
    if s.index >= 10 {
      assert Window(s) == Live(s)[start..] && Window(t) == Live(t)[start..];
    }
  }

  // ---------------------------------------------------------------- One instruction

  datatype Event =
    | RegistersShown(values: Registers)
    | StackShown(index: nat, cells: seq<Byte>)
    | Printed(kind: Qword, value: Qword)

  datatype State = State(regs: Registers, stack: Stack, exitCode: Byte, events: seq<Event>)

  datatype Fault =
    | InvalidOpcode(op: Byte)
    | InvalidRegister(id: Byte)
    | InvalidSyscall(number: Qword)
    | InvalidType(kind: Qword)
    | IpOutOfRange
    | EmptyStack
    | OutsideProgram

  /** What a handler returns: an instruction pointer, no pointer, or no pointer and an error. */
  datatype Next = At(ip: Qword) | Following | Failing(fault: Fault)

  function SystemCall(s: State): (r: (State, Next))
    ensures r.0.regs == s.regs && r.0.stack == s.stack && !r.1.At?
  {
    var r0, r1, r2 := s.regs[0], s.regs[1], s.regs[2];
    match r0
    case 0 => (s.(exitCode := r1 % 256), Following)
    case 1 => (s.(events := s.events + [RegistersShown(s.regs)]), Following)
    case 2 => (s.(events := s.events + [StackShown(s.stack.index, Window(s.stack))]), Following)
    case 3 =>
      if r1 > 3 then (s, Failing(InvalidType(r1)))
      else (s.(events := s.events + [Printed(r1, if r1 == 3 then r2 % 256 else r2)]), Following)
    case _ => (s, Failing(InvalidSyscall(r0)))
  }

  function Handle(code: seq<Byte>, base: nat, s: State): (State, Next)
    requires base <= s.regs[IP] < base + |code|
  {
    var at := s.regs[IP] - base;
    match code[at]
    case 0 => (s, Following)
    case 1 => (s, Following)
    case 2 => MovHandler(code, base, at, s)
    case 3 =>
      if at + 2 >= |code| then (s, Failing(OutsideProgram))
      else if code[at + 1] >= 12 then (s, Failing(InvalidRegister(code[at + 1])))
      else if code[at + 2] >= 12 then (s, Failing(InvalidRegister(code[at + 2])))
      else
        var sum := Sum(s.regs[code[at + 1]], s.regs[code[at + 2]]);
        (s.(regs := s.regs[code[at + 1] := sum]), At(Wrapped(base + at + 3)))
    case 4 => SystemCall(s)
    case 5 => (s.(events := s.events + [RegistersShown(s.regs)]), Following)
    case 6 =>
      if at + 1 >= |code| then (s, Failing(OutsideProgram))
      else if code[at + 1] >= 12 then (s, Failing(InvalidRegister(code[at + 1])))
      else (s.(stack := Pushed(s.stack, s.regs[code[at + 1]] % 256)), At(Wrapped(base + at + 2)))
    case 7 =>
      if at + 1 >= |code| then (s, Failing(OutsideProgram))
      else if code[at + 1] >= 12 then (s, Failing(InvalidRegister(code[at + 1])))
      else (
        match Popped(s.stack)
        case None => (s, Failing(EmptyStack))
        case Some((b, rest)) =>
          (s.(regs := s.regs[code[at + 1] := b], stack := rest), At(Wrapped(base + at + 2)))
      )
    case 8 => (s.(events := s.events + [StackShown(s.stack.index, Window(s.stack))]), Following)
    case _ => (s, Failing(InvalidOpcode(code[at])))
  }

  /** The immediate is fetched relative to the register `%is`, not to the start of the code. */
  function Operand8(base: nat, at: nat, s: State): Qword {
    Wrapped(base + at + 2 - s.regs[IS])
  }

  function MovHandler(code: seq<Byte>, base: nat, at: nat, s: State): (State, Next)
    requires at < |code|
  {
    if at + 1 >= |code| then (s, Failing(OutsideProgram))
    else if code[at + 1] >= 12 then (s, Failing(InvalidRegister(code[at + 1])))
    else if Operand8(base, at, s) + 8 > |code| then (s, Failing(OutsideProgram))
    else
      (s.(regs := s.regs[code[at + 1] := QwordAt(code, Operand8(base, at, s))]), At(Wrapped(base + at + 10)))
  }

  // ---------------------------------------------------------------- The execution loop

  datatype Outcome =
    | Running(state: State)
    | Halted(state: State)
    | Failed(state: State, fault: Fault)
    | Exhausted(state: State)

  function Step(code: seq<Byte>, base: nat, s: State): Outcome {
    if s.regs[IP] >= base + |code| then Failed(s, IpOutOfRange)
    else if s.regs[IP] < base then Failed(s, OutsideProgram)
    else if code[s.regs[IP] - base] == 1 then Halted(s)
    else
      var (t, next) := Handle(code, base, s);
      match next
      case At(ip) => Running(t.(regs := t.regs[IP := ip]))
      case Following => Running(t.(regs := t.regs[IP := Sum(t.regs[IP], 1)]))
      case Failing(fault) => Failed(t, fault)
  }

  /** The loop after `i` rounds; its own counter ends it in the thousandth. */
  function Exec(code: seq<Byte>, base: nat, s: State, i: nat): Outcome
    requires i < 1000
    decreases 1000 - i
  {
    if s.regs[IP] == 0 then Halted(s)
    else if i + 1 >= 1000 then Exhausted(s)
    else
      match Step(code, base, s)
      case Running(t) => Exec(code, base, t, i + 1)
      case o => o
  }

  function Started(base: Qword, s: State): State {
    s.(regs := s.regs[IP := base][IS := base])
  }

  /** The code lies in memory where neither its start nor the end of a last instruction wraps. */
  predicate Loaded(code: seq<Byte>, base: nat) {
    1 <= base && base + |code| + 10 <= QWORD
  }

  // ---------------------------------------------------------------- The instructions' own meaning

  function Write(s: State, r: Register, q: Qword): State {
    s.(regs := s.regs[r := q])
  }

  /** Moves past an instruction that started at `ip`, whatever it did to `%ip`. */
  function Past(s: State, ip: int, i: Instruction): State {
    Write(s, IP, Wrapped(ip + |EncodeOne(i)|))
  }

  /** What an instruction means, without any code in sight. */
  function Effect(i: Instruction, s: State): Outcome {
    var ip := s.regs[IP];
    match i
    case NoOp => Running(Past(s, ip, i))
    case Halt => Halted(s)
    case Mov(reg, value) => Running(Past(Write(s, reg, value), ip, i))
    case Add(to, from) => Running(Past(Write(s, to, Sum(s.regs[to], s.regs[from])), ip, i))
    case Syscall => (
      match SystemCall(s)
      case (t, Failing(fault)) => Failed(t, fault)
      case (t, _) => Running(Past(t, ip, i))
    )
    case DumpRegisters => Running(Past(s.(events := s.events + [RegistersShown(s.regs)]), ip, i))
    case Push(reg) => Running(Past(s.(stack := Pushed(s.stack, s.regs[reg] % 256)), ip, i))
    case Pop(reg) => (
      match Popped(s.stack)
      case None => Failed(s, EmptyStack)
      case Some((b, rest)) => Running(Past(Write(s.(stack := rest), reg, b), ip, i))
    )
    case DumpStack => Running(Past(s.(events := s.events + [StackShown(s.stack.index, Window(s.stack))]), ip, i))
  }

  /** The instructions one after the other, up to the first that stops, and no more than `budget`. */
  function Fold(program: seq<Instruction>, s: State, budget: nat): Outcome {
    if budget == 0 then Exhausted(s)
    else if program == [] then Failed(s, IpOutOfRange)
    else
      match Effect(program[0], s)
      case Running(t) => Fold(program[1..], t, budget - 1)
      case o => o
  }

  // ---------------------------------------------------------------- Executing what was encoded

  /** A step on encoded code does what the instruction means, provided `%is` still marks the start. */
  lemma StepIsEffect(code: seq<Byte>, base: nat, s: State, at: nat, i: Instruction)
    requires Loaded(code, base) && s.regs[IP] == base + at
    requires Holds(code, at, i)
    requires i.Mov? ==> s.regs[IS] == base
    ensures Step(code, base, s) == Effect(i, s)
  {
    hide LittleEndian, Number, Power, SystemCall, Window, Popped, Pushed, Wrapped;
    if i.Mov? {
      MovReads(code, base, s, at, i, at, i);
    } else {
      OperandBytes(code, at, i);
    }
  }

  lemma OperandBytes(code: seq<Byte>, at: nat, i: Instruction)
    requires Holds(code, at, i)
    ensures at < |code| && code[at] == OpcodeOf(i)
    ensures match i
            case Mov(reg, value) => at + 10 <= |code| && code[at + 1] == reg && QwordAt(code, at + 2) == value
            case Add(to, from) => at + 3 <= |code| && code[at + 1] == to && code[at + 2] == from
            case Push(reg) => at + 2 <= |code| && code[at + 1] == reg
            case Pop(reg) => at + 2 <= |code| && code[at + 1] == reg
            case _ => true
  {
    hide LittleEndian, Number, Power;
    var bytes := EncodeOne(i);
    assert forall k :: 0 <= k < |bytes| ==> code[at + k] == bytes[k];
    assert code[at] == bytes[0];
    if |bytes| > 1 { assert code[at + 1] == bytes[1]; }
    if |bytes| > 2 { assert code[at + 2] == bytes[2]; }
    if i.Mov? {
      assert code[at + 2..at + 10] == LittleEndian(i.value, 8);
      EightBytes();
      NumberReadBack(i.value, 8);
    }
  }

  /** A move loads the immediate that `%is` leads to: its own or that of another move. */
  lemma MovReads(code: seq<Byte>, base: nat, s: State, at: nat, i: Instruction, from: nat, j: Instruction)
    requires Loaded(code, base) && s.regs[IP] == base + at && i.Mov? && j.Mov?
    requires Holds(code, at, i) && Holds(code, from, j)
    requires s.regs[IS] == base + at - from
    ensures Step(code, base, s) == Running(Past(Write(s, i.reg, j.value), base + at, i))
  {
    hide LittleEndian, Number, Power, SystemCall, Window, Popped, Pushed, Wrapped;
    OperandBytes(code, at, i);
    OperandBytes(code, from, j);
    assert Operand8(base, at, s) == from + 2;
  }

  /** No immediate is loaded after `%is` was written; what follows a halt does not matter. */
  predicate MovsBeforeIs(program: seq<Instruction>, written: bool) {
    program == []
    || program[0].Halt?
    || (!(written && program[0].Mov?) && MovsBeforeIs(program[1..], written || WritesIs(program[0])))
  }

  predicate WritesIs(i: Instruction) {
    match i
    case Mov(reg, _) => reg == IS
    case Add(to, _) => to == IS
    case Pop(reg) => reg == IS
    case _ => false
  }

  lemma EffectMoves(i: Instruction, s: State)
    requires s.regs[IP] + 10 < QWORD
    ensures Effect(i, s).Running? ==>
              Effect(i, s).state.regs[IP] == s.regs[IP] + |EncodeOne(i)|
  {
    hide LittleEndian, Window, Popped, Pushed;
  }

  /** Every move that is executed, on the way to what stops the run, finds `%is` at the start. */
  predicate Anchored(program: seq<Instruction>, s: State, base: nat, budget: nat) {
    budget == 0 || program == []
    || ((program[0].Mov? ==> s.regs[IS] == base)
        && match Effect(program[0], s)
           case Running(t) => Anchored(program[1..], t, base, budget - 1)
           case _ => true)
  }

  /** A program that loads no immediate after writing `%is` is anchored in any state. */
  lemma {:induction false} AnchoredByOrder(program: seq<Instruction>, s: State, base: nat, written: bool, budget: nat)
    requires MovsBeforeIs(program, written) && (!written ==> s.regs[IS] == base)
    ensures Anchored(program, s, base, budget)
    decreases |program|
  {
    hide Effect, WritesIs;
    if budget > 0 && program != [] {
      HaltStops(program[0], s);
      EffectKeepsIs(program[0], s);
      if Effect(program[0], s).Running? {
        AnchoredByOrder(program[1..], Effect(program[0], s).state, base, written || WritesIs(program[0]), budget - 1);
      }
    }
  }

  lemma EffectKeepsIs(i: Instruction, s: State)
    ensures Effect(i, s).Running? && !WritesIs(i) ==> Effect(i, s).state.regs[IS] == s.regs[IS]
  {
    hide EncodeOne, Window, Popped, Pushed;
  }

  /** An instruction inside its code: a move loads whatever `%is` leads to. */
  function EffectIn(code: seq<Byte>, base: nat, at: nat, i: Instruction, s: State): Outcome {
    if !i.Mov? then Effect(i, s)
    else if Operand8(base, at, s) + 8 > |code| then Failed(s, OutsideProgram)
    else Effect(i.(value := QwordAt(code, Operand8(base, at, s))), s)
  }

  function FoldIn(code: seq<Byte>, base: nat, at: nat, program: seq<Instruction>, s: State, budget: nat): Outcome
    decreases budget
  {
    if budget == 0 then Exhausted(s)
    else if program == [] then Failed(s, IpOutOfRange)
    else
      match EffectIn(code, base, at, program[0], s)
      case Running(t) => FoldIn(code, base, at + |EncodeOne(program[0])|, program[1..], t, budget - 1)
      case o => o
  }

  lemma StepIsEffectIn(code: seq<Byte>, base: nat, s: State, at: nat, i: Instruction)
    requires Loaded(code, base) && s.regs[IP] == base + at && Holds(code, at, i)
    ensures Step(code, base, s) == EffectIn(code, base, at, i, s)
  {
    hide LittleEndian, Number, Power, SystemCall, Window, Popped, Pushed, Wrapped, QwordAt;
    if i.Mov? {
      OperandBytes(code, at, i);
    } else {
      StepIsEffect(code, base, s, at, i);
    }
  }

  lemma EffectInMoves(code: seq<Byte>, base: nat, at: nat, i: Instruction, s: State)
    requires s.regs[IP] + 10 < QWORD
    ensures EffectIn(code, base, at, i, s).Running? ==>
              EffectIn(code, base, at, i, s).state.regs[IP] == s.regs[IP] + |EncodeOne(i)|
    ensures i.Halt? <==> EffectIn(code, base, at, i, s).Halted?
  {
    hide LittleEndian, Window, Popped, Pushed, QwordAt;
    EffectMoves(i, s);
    HaltStops(i, s);
  }

  /** Any encoded program runs as its instructions do inside its code, from any of them on. */
  lemma {:induction false} ExecIsFoldIn(before: seq<Byte>, program: seq<Instruction>, base: nat, s: State, i: nat)
    requires i < 1000
    requires Loaded(before + Encode(program), base) && s.regs[IP] == base + |before|
    ensures Exec(before + Encode(program), base, s, i)
         == FoldIn(before + Encode(program), base, |before|, program, s, 999 - i)
    decreases |program|
  {
    hide EncodeOne, SizeOf, OpcodeOf, Step, EffectIn;
    var code := before + Encode(program);
    if i + 1 >= 1000 {
    } else if program == [] {
      assert Step(code, base, s) == Failed(s, IpOutOfRange) by { OffTheEnd(code, base, s); }
    } else {
      var one := EncodeOne(program[0]);
      assert code == before + one + Encode(program[1..]);
      assert Holds(code, |before|, program[0]) by { hide Encode; }
      StepIsEffectIn(code, base, s, |before|, program[0]);
      EffectInMoves(code, base, |before|, program[0], s);
      var o := EffectIn(code, base, |before|, program[0], s);
      if o.Running? {
        ExecIsFoldIn(before + one, program[1..], base, o.state, i + 1);
      }
    }
  }

  /** Where every move that is executed finds `%is` at the start, the code adds nothing. */
  lemma {:induction false} AnchoredFold(before: seq<Byte>, program: seq<Instruction>, base: nat, s: State, budget: nat)
    requires Loaded(before + Encode(program), base) && s.regs[IP] == base + |before|
    requires Anchored(program, s, base, budget)
    ensures FoldIn(before + Encode(program), base, |before|, program, s, budget) == Fold(program, s, budget)
    decreases |program|
  {
    hide EncodeOne, SizeOf, OpcodeOf, Effect, EffectIn;
    if budget > 0 && program != [] {
      var code, one := before + Encode(program), EncodeOne(program[0]);
      assert code == before + one + Encode(program[1..]);
      assert Holds(code, |before|, program[0]) by { hide Encode; }
      OwnImmediate(code, base, |before|, program[0], s);
      EffectMoves(program[0], s);
      if Effect(program[0], s).Running? {
        AnchoredFold(before + one, program[1..], base, Effect(program[0], s).state, budget - 1);
      }
    }
  }

  lemma OwnImmediate(code: seq<Byte>, base: nat, at: nat, i: Instruction, s: State)
    requires Loaded(code, base) && Holds(code, at, i) && s.regs[IP] == base + at && (i.Mov? ==> s.regs[IS] == base)
    ensures EffectIn(code, base, at, i, s) == Effect(i, s)
  {
    StepIsEffectIn(code, base, s, at, i);
    StepIsEffect(code, base, s, at, i);
  }

  lemma ExecIsFold(before: seq<Byte>, program: seq<Instruction>, base: nat, s: State, i: nat)
    requires i < 1000
    requires Loaded(before + Encode(program), base) && s.regs[IP] == base + |before|
    requires Anchored(program, s, base, 999 - i)
    ensures Exec(before + Encode(program), base, s, i) == Fold(program, s, 999 - i)
  {
    hide Exec, FoldIn, Fold, Anchored, Encode;
    ExecIsFoldIn(before, program, base, s, i);
    AnchoredFold(before, program, base, s, 999 - i);
  }

  lemma OffTheEnd(code: seq<Byte>, base: nat, s: State)
    requires s.regs[IP] == base + |code|
    ensures Step(code, base, s) == Failed(s, IpOutOfRange)
  {
  }

  lemma HaltStops(i: Instruction, s: State)
    ensures i.Halt? <==> Effect(i, s).Halted?
  {
  }

  /**
   * Executing an encoded program is going through its instructions up to the first that stops,
   * at most 999 of them, as long as the moves among them find `%is` at the start of the code; so
   * they do in a program that does not write `%is` before a move.
   */
  lemma RunningAProgram(program: seq<Instruction>, base: Qword, s: State)
    requires Loaded(Encode(program), base)
    requires MovsBeforeIs(program, false) || Anchored(program, Started(base, s), base, 999)
    ensures Exec(Encode(program), base, Started(base, s), 0) == Fold(program, Started(base, s), 999)
  {
    hide Encode, Fold, Exec, MovsBeforeIs, Anchored;
    if MovsBeforeIs(program, false) {
      AnchoredByOrder(program, Started(base, s), base, false, 999);
    }
    ExecIsFold([], program, base, Started(base, s), 0);
    assert [] + Encode(program) == Encode(program);
  }

  /** Executing any encoded program is going through its instructions inside its code. */
  lemma RunningAnyProgram(program: seq<Instruction>, base: Qword, s: State)
    requires Loaded(Encode(program), base)
    ensures Exec(Encode(program), base, Started(base, s), 0)
         == FoldIn(Encode(program), base, 0, program, Started(base, s), 999)
  {
    hide Encode, FoldIn, Exec;
    ExecIsFoldIn([], program, base, Started(base, s), 0);
    assert [] + Encode(program) == Encode(program);
  }

  /** The same for any code the disassembler lists to its end: the listing says what will happen. */
  lemma ListingExplainsRun(code: seq<Byte>, base: Qword, s: State) returns (program: seq<Instruction>)
    requires Loaded(code, base) && Sweep(code, 0).stopped.None?
    ensures Sweep(code, 0).lines == LinesOf(program, 0)
    ensures Exec(code, base, Started(base, s), 0) == FoldIn(code, base, 0, program, Started(base, s), 999)
    ensures MovsBeforeIs(program, false) || Anchored(program, Started(base, s), base, 999) ==>
              Exec(code, base, Started(base, s), 0) == Fold(program, Started(base, s), 999)
  {
    WellFormedCodes(code);
    program :| Encode(program) == code;
    RunningAnyProgram(program, base, s);
    if MovsBeforeIs(program, false) || Anchored(program, Started(base, s), base, 999) {
      RunningAProgram(program, base, s);
    }
  }

  /** The machine reads the immediate that is shown exactly as long as `%is` marks the start. */
  lemma ImmediateShown(code: seq<Byte>, base: nat, at: nat, s: State)
    requires Loaded(code, base) && at + 10 <= |code|
    ensures Operand8(base, at, s) == at + 2 <==> s.regs[IS] == base
  {
    var d := base + at + 2 - s.regs[IS];
    if s.regs[IS] > base + at + 2 {
      assert Wrapped(d) == d + QWORD;
    }
  }

  /** After `%is` was moved ten bytes up, a later immediate comes out as the one of the first move. */
  lemma MovAfterIs(base: Qword, value: Qword, s: State)
    requires base + 40 <= QWORD && 1 <= base && value != base + 10
    ensures var program := [Mov(IS, base + 10), Mov(0, value), Halt];
            && Exec(Encode(program), base, Started(base, s), 0).Halted?
            && Exec(Encode(program), base, Started(base, s), 0).state.regs[0] == base + 10
            && Fold(program, Started(base, s), 999).Halted?
            && Fold(program, Started(base, s), 999).state.regs[0] == value
  {
    hide LittleEndian, Number, Power, Handle;
    var first, second := Mov(IS, base + 10), Mov(0, value);
    var program := [first, second, Halt];
    var code, s0 := Encode(program), Started(base, s);
    assert code == EncodeOne(first) + EncodeOne(second) + EncodeOne(Halt) by {
      EncodeThree(first, second, Halt);
    }
    assert Holds(code, 0, first) && Holds(code, 10, second) && Holds(code, 20, Halt);
    StepIsEffect(code, base, s0, 0, first);
    var s1 := Effect(first, s0).state;
    EffectMoves(first, s0);
    MovReads(code, base, s1, 10, second, 0, first);
    var s2 := Step(code, base, s1).state;
    StepIsEffect(code, base, s2, 20, Halt);
    assert Exec(code, base, s0, 0) == Exec(code, base, s1, 1) == Exec(code, base, s2, 2) == Halted(s2);
    assert program[1..] == [second, Halt] && program[1..][1..] == [Halt];
    var t := Effect(second, s1).state;
    assert Fold(program, s0, 999) == Fold(program[1..], s1, 998) == Fold(program[1..][1..], t, 997) == Halted(t);
  }

  lemma EncodeThree(a: Instruction, b: Instruction, c: Instruction)
    ensures Encode([a, b, c]) == EncodeOne(a) + EncodeOne(b) + EncodeOne(c)
  {
    hide EncodeOne;
    assert [a, b, c] == [a] + [b] + [c];
    EncodeAppend([a] + [b], [c]);
    EncodeAppend([a], [b]);
  }

  // ---------------------------------------------------------------- Two walkers, one set of boundaries

  /** The offsets of the opcodes the machine fetches in its next `n` rounds. */
  function Visited(code: seq<Byte>, base: nat, s: State, n: nat): seq<int>
    decreases n
  {
    if n == 0 || !(base <= s.regs[IP] < base + |code|) then []
    else
      [s.regs[IP] - base]
      + match Step(code, base, s)
        case Running(t) => Visited(code, base, t, n - 1)
        case _ => []
  }

  /** Each step that goes on advances by the size in the operand tables, whatever it writes. */
  lemma StepAdvances(code: seq<Byte>, base: nat, s: State, at: nat)
    requires Loaded(code, base) && at < |code| && s.regs[IP] == base + at
    requires Step(code, base, s).Running?
    ensures Step(code, base, s).state.regs[IP] == base + at + SizeOf(code[at])
    ensures at + SizeOf(code[at]) <= |code| ==> Look(code, at).Shown?
  {
    hide Number, Window, Popped, Pushed;
  }

  /**
   * Whatever the bytes, the registers and the value of `%is`: the machine fetches its opcodes at
   * the offsets of the disassembler's sweep, in the same order and without a gap.
   */
  lemma {:induction false} BoundariesAgree(code: seq<Byte>, base: nat, s: State, at: nat, n: nat)
    requires Loaded(code, base) && s.regs[IP] == base + at
    ensures Visited(code, base, s, n) <= Offsets(Sweep(code, at))
    decreases n
  {
    hide Step, SizeOf, Look, Sweep, Offsets;
    if n > 0 && at < |code| {
      FirstOffset(code, at);
      if Step(code, base, s).Running? {
        StepAdvances(code, base, s, at);
        var next := at + SizeOf(code[at]);
        BoundariesAgree(code, base, Step(code, base, s).state, next, n - 1);
        if next > |code| {
          assert Visited(code, base, Step(code, base, s).state, n - 1) == [];
        }
      }
    }
  }

  lemma FirstOffset(code: seq<Byte>, at: nat)
    requires at < |code|
    ensures [at] <= Offsets(Sweep(code, at))
    ensures Look(code, at).Shown? ==> Offsets(Sweep(code, at)) == [at] + Offsets(Sweep(code, at + SizeOf(code[at])))
  {
    hide SizeOf, Look;
    var l := Sweep(code, at);
    match Look(code, at) {
      case Stopped(why) =>
        assert l.lines == [] && l.stopped == Some((at, why));
        assert Offsets(l) == [at];
      case Shown(line) =>
        var rest := Sweep(code, at + SizeOf(code[at]));
        assert l.lines == [line] + rest.lines && l.stopped == rest.stopped;
        assert l.lines[1..] == rest.lines;
        assert LineOffsets(l.lines) == [at] + LineOffsets(rest.lines);
        assert Offsets(l) == [at] + Offsets(rest);
    }
  }

  // ---------------------------------------------------------------- When a program halts

  predicate HaltWithin(program: seq<Instruction>, budget: nat) {
    program != [] && budget > 0 && (program[0].Halt? || HaltWithin(program[1..], budget - 1))
  }

  /** Up to the first halt, every pop finds one of the bytes pushed before. */
  predicate PopsCovered(program: seq<Instruction>, depth: nat) {
    program == []
    || match program[0]
       case Halt => true
       case Push(_) => PopsCovered(program[1..], depth + 1)
       case Pop(_) => depth > 0 && PopsCovered(program[1..], depth - 1)
       case _ => PopsCovered(program[1..], depth)
  }

  predicate BadSyscall(o: Outcome) {
    o.Failed? && (o.fault.InvalidSyscall? || o.fault.InvalidType?)
  }

  lemma EffectDepth(i: Instruction, s: State)
    ensures match i
            case Halt => Effect(i, s) == Halted(s)
            case Push(_) => Effect(i, s).Running? && Effect(i, s).state.stack.index == s.stack.index + 1
            case Pop(_) =>
              if s.stack.index == 0 then Effect(i, s) == Failed(s, EmptyStack)
              else Effect(i, s).Running? && Effect(i, s).state.stack.index == s.stack.index - 1
            case Syscall => BadSyscall(Effect(i, s)) || (Effect(i, s).Running? && Effect(i, s).state.stack == s.stack)
            case _ => Effect(i, s).Running? && Effect(i, s).state.stack == s.stack
  {
    hide EncodeOne, Window;
  }

  /** Every system call on the way asks for one of the four services, and prints one of four kinds. */
  predicate SyscallsAccepted(program: seq<Instruction>, s: State, budget: nat) {
    budget == 0 || program == []
    || ((program[0].Syscall? ==> s.regs[0] <= 3 && (s.regs[0] == 3 ==> s.regs[1] <= 3))
        && match Effect(program[0], s)
           case Running(t) => SyscallsAccepted(program[1..], t, budget - 1)
           case _ => true)
  }

  lemma SyscallAccepted(s: State)
    ensures BadSyscall(Effect(Syscall, s)) <==> !(s.regs[0] <= 3 && (s.regs[0] == 3 ==> s.regs[1] <= 3))
  {
    hide EncodeOne, Window;
  }

  /**
   * Within its budget a program halts exactly when it reaches a halt in time, no pop before it
   * finds the stack empty, and every system call before it finds arguments that are accepted.
   */
  lemma {:induction false} HaltsExactlyWhen(program: seq<Instruction>, s: State, budget: nat)
    ensures Fold(program, s, budget).Halted?
       <==> HaltWithin(program, budget) && PopsCovered(program, s.stack.index) && SyscallsAccepted(program, s, budget)
    decreases |program|
  {
    hide Effect;
    if budget > 0 && program != [] {
      EffectDepth(program[0], s);
      SyscallAccepted(s);
      if Effect(program[0], s).Running? {
        HaltsExactlyWhen(program[1..], Effect(program[0], s).state, budget - 1);
      }
    }
  }

  /** So does the machine on the program's code, wherever it is loaded. */
  lemma MachineHaltsExactlyWhen(program: seq<Instruction>, base: Qword, s: State)
    requires Loaded(Encode(program), base)
    requires MovsBeforeIs(program, false) || Anchored(program, Started(base, s), base, 999)
    ensures Exec(Encode(program), base, Started(base, s), 0).Halted?
       <==> && HaltWithin(program, 999) && PopsCovered(program, s.stack.index)
            && SyscallsAccepted(program, Started(base, s), 999)
  {
    hide Encode, Fold, Exec, MovsBeforeIs, Anchored, HaltWithin, PopsCovered, SyscallsAccepted;
    RunningAProgram(program, base, s);
    HaltsExactlyWhen(program, Started(base, s), 999);
  }

  predicate NoSyscalls(program: seq<Instruction>) {
    forall k :: 0 <= k < |program| ==> program[k] != Syscall
  }

  /** Without system calls, halting can be read off the program: no register decides it. */
  lemma {:induction false} HaltingIsStatic(program: seq<Instruction>, s: State, budget: nat)
    requires NoSyscalls(program)
    ensures Fold(program, s, budget).Halted? <==> HaltWithin(program, budget) && PopsCovered(program, s.stack.index)
    decreases |program|
  {
    hide Effect;
    if budget > 0 && program != [] {
      EffectDepth(program[0], s);
      assert program[0] != Syscall;
      if Effect(program[0], s).Running? {
        HaltingIsStatic(program[1..], Effect(program[0], s).state, budget - 1);
      }
    }
  }

  /** A run that fails or halts says so before the counter runs out. */
  lemma {:induction false} ExhaustedOnlyByLength(program: seq<Instruction>, s: State, budget: nat)
    ensures Fold(program, s, budget).Exhausted? ==> |program| >= budget && !HaltWithin(program, budget)
    ensures !Fold(program, s, budget).Running?
    decreases budget
  {
    hide Effect;
    if budget > 0 && program != [] {
      EffectDepth(program[0], s);
      if Effect(program[0], s).Running? {
        ExhaustedOnlyByLength(program[1..], Effect(program[0], s).state, budget - 1);
      }
    }
  }
}
