/**
  What whole runs of the virtual machine show to the outside, for any code: the exit code, and what
  was dumped and printed, in order; and what each instruction does to registers and stack.
*/
module MachineRuns {
  import opened Bytecode
  import opened VirtualMachine
  import opened Ast
  import Processors

  // ----- the rounds of a run -----

  // A round of the loop: the opcode it executes and the state in which it does.
  datatype Round = Round(op: Byte, state: State)

  // The rounds from the given number on, the last one included, which halts or fails.
  function Rounds(code: seq<Byte>, base: nat, s: State, i: nat): seq<Round>
    requires i < 1000
    decreases 1000 - i
  {
    if s.regs[IP] == 0 || i + 1 >= 1000 || !(base <= s.regs[IP] < base + |code|) then []
    else
      [Round(code[s.regs[IP] - base], s)]
      + match Step(code, base, s)
        case Running(t) => Rounds(code, base, t, i + 1)
        case _ => []
  }

  // The numbers of the opcodes that the outside can notice.
  const SYSCALL: Byte := 4
  const REGDUMP: Byte := 5
  const STACKDMP: Byte := 8

  // ----- the exit code -----

  // A system call that sets the exit code.
  predicate Exits(r: Round) { r.op == SYSCALL && r.state.regs[0] == 0 }

  // The code is the low byte of %r1 in the last of the rounds that exit, or the initial one.
  ghost predicate CodeFrom(rounds: seq<Round>, initial: Byte, code: Byte) {
    && ((forall k :: 0 <= k < |rounds| ==> !Exits(rounds[k])) ==> code == initial)
    && forall k :: 0 <= k < |rounds| && Exits(rounds[k]) && (forall j :: k < j < |rounds| ==> !Exits(rounds[j])) ==>
         code == rounds[k].state.regs[1] % 256
  }

  lemma CodeOfFirst(r: Round, rounds: seq<Round>, code: Byte)
    requires CodeFrom(rounds, if Exits(r) then r.state.regs[1] % 256 else r.state.exitCode, code)
    ensures CodeFrom([r] + rounds, r.state.exitCode, code)
  {
    hide Exits;
    var all := [r] + rounds;
    assert forall k :: 0 < k < |all| ==> all[k] == rounds[k - 1];
    forall k | 0 <= k < |all| && Exits(all[k]) && (forall j :: k < j < |all| ==> !Exits(all[j]))
      ensures code == all[k].state.regs[1] % 256
    {
      forall j | k <= j < |rounds|
        ensures !Exits(rounds[j])
      {
        assert all[j + 1] == rounds[j];
      }
    }
    if forall k :: 0 <= k < |all| ==> !Exits(all[k]) {
      assert !Exits(all[0]);
      forall j | 0 <= j < |rounds|
        ensures !Exits(rounds[j])
      {
        assert all[j + 1] == rounds[j];
      }
    }
  }

  // ----- what is shown -----

  // The cells of a stack dump: the ten below the top, or the lowest as long as fewer are in use.
  function DumpedCells(s: Stack): seq<Byte> {
    if s.index >= 10 then Live(s)[s.index - 10..] else if |s.cells| >= 10 then s.cells[..10] else s.cells
  }

  // What a round shows: the registers for service 1 or a register dump, the stack for service 2 or
  // a stack dump, and %r2 for service 3, as a character where %r1 is 3.
  function Shows(r: Round): seq<Event> {
    var regs, stack := r.state.regs, r.state.stack;
    if r.op == REGDUMP || (r.op == SYSCALL && regs[0] == 1) then [RegistersShown(regs)]
    else if r.op == STACKDMP || (r.op == SYSCALL && regs[0] == 2) then [StackShown(stack.index, DumpedCells(stack))]
    else if r.op == SYSCALL && regs[0] == 3 && regs[1] < 3 then [Printed(regs[1], regs[2])]
    else if r.op == SYSCALL && regs[0] == 3 && regs[1] == 3 then [Printed(3, regs[2] % 256)]
    else []
  }

  function AllShown(rounds: seq<Round>): seq<Event> {
    if rounds == [] then [] else Shows(rounds[0]) + AllShown(rounds[1..])
  }

  lemma WindowIsDumped(s: Stack)
    ensures Window(s) == DumpedCells(s)
  {
  }

  // ----- whole runs -----

  lemma OneRound(code: seq<Byte>, base: nat, s: State)
    requires base <= s.regs[IP] < base + |code|
    ensures var r := Round(code[s.regs[IP] - base], s);
      var t := Step(code, base, s).state;
      && t.exitCode == (if Exits(r) then s.regs[1] % 256 else s.exitCode)
      && t.events == s.events + Shows(r)
  {
    hide Window, Pushed, Popped, QwordAt, DumpedCells, Wrapped, Sum;
    WindowIsDumped(s.stack);
  }

  // The run after its next round, if there is one, and the rounds of both.
  lemma NextRound(code: seq<Byte>, base: nat, s: State, i: nat)
    requires i < 1000 && Rounds(code, base, s, i) != []
    ensures base <= s.regs[IP] < base + |code| && s.regs[IP] != 0 && i + 1 < 1000
    ensures var r := Round(code[s.regs[IP] - base], s);
      match Step(code, base, s)
      case Running(t) =>
        Exec(code, base, s, i) == Exec(code, base, t, i + 1)
        && Rounds(code, base, s, i) == [r] + Rounds(code, base, t, i + 1)
      case o => Exec(code, base, s, i) == o && Rounds(code, base, s, i) == [r]
  {
    hide Step;
    var r := Round(code[s.regs[IP] - base], s);
    assert [r] + [] == [r];
  }

  lemma FirstShown(r: Round, rounds: seq<Round>)
    ensures AllShown([r] + rounds) == Shows(r) + AllShown(rounds)
  {
    hide Shows;
    assert ([r] + rounds)[1..] == rounds;
  }

  // Whatever the code and the registers: the exit code of a run is the low byte of %r1 at the last
  // call of the exit service, and the events are what the rounds show, in their order.
  lemma {:induction false} RunsShow(code: seq<Byte>, base: nat, s: State, i: nat)
    requires i < 1000
    ensures var end := Exec(code, base, s, i).state;
      var rounds := Rounds(code, base, s, i);
      CodeFrom(rounds, s.exitCode, end.exitCode) && end.events == s.events + AllShown(rounds)
    decreases 1000 - i
  {
    hide Exits, Shows, CodeFrom, Step, Exec, Rounds, AllShown;
    if Rounds(code, base, s, i) == [] {
      NoRounds(code, base, s, i);
    } else {
      NextRound(code, base, s, i);
      OneRound(code, base, s);
      var r, o := Round(code[s.regs[IP] - base], s), Step(code, base, s);
      if o.Running? {
        RunsShow(code, base, o.state, i + 1);
        FirstShown(r, Rounds(code, base, o.state, i + 1));
        CodeOfFirst(r, Rounds(code, base, o.state, i + 1), Exec(code, base, s, i).state.exitCode);
      } else {
        NothingMore(o.state.exitCode);
        FirstShown(r, []);
        CodeOfFirst(r, [], o.state.exitCode);
        assert [r] + [] == [r];
      }
    }
  }

  lemma NoRounds(code: seq<Byte>, base: nat, s: State, i: nat)
    requires i < 1000 && Rounds(code, base, s, i) == []
    ensures Exec(code, base, s, i).state == s && CodeFrom([], s.exitCode, s.exitCode) && AllShown([]) == []
  {
  }

  lemma NothingMore(code: Byte)
    ensures CodeFrom([], code, code) && AllShown([]) == []
  {
  }

  // A run halts in a round that executes opcode 1 or when %ip has become 0, and it is cut off after
  // 999 rounds if the last of them would have gone on.
  lemma {:induction false} RunsEnd(code: seq<Byte>, base: nat, s: State, i: nat)
    requires i < 1000
    ensures var end, rounds := Exec(code, base, s, i), Rounds(code, base, s, i);
      && |rounds| <= 999 - i && !end.Running?
      && (end.Halted? <==> end.state.regs[IP] == 0 || (rounds != [] && rounds[|rounds| - 1].op == 1))
      && (end.Exhausted? <==>
            |rounds| == 999 - i && end.state.regs[IP] != 0
            && (rounds != [] ==> Step(code, base, rounds[|rounds| - 1].state).Running?))
    decreases 1000 - i
  {
    hide Exec, Rounds, Step;
    if Rounds(code, base, s, i) == [] {
      NoMoreRounds(code, base, s, i);
    } else {
      NextRound(code, base, s, i);
      StepStops(code, base, s);
      var o, rounds := Step(code, base, s), Rounds(code, base, s, i);
      if o.Running? {
        RunsEnd(code, base, o.state, i + 1);
        var rest := Rounds(code, base, o.state, i + 1);
        assert rounds[|rounds| - 1] == if rest == [] then rounds[0] else rest[|rest| - 1];
      }
    }
  }

  lemma NoMoreRounds(code: seq<Byte>, base: nat, s: State, i: nat)
    requires i < 1000 && Rounds(code, base, s, i) == []
    ensures var end := Exec(code, base, s, i);
      && end.state == s && !end.Running? && (end.Halted? <==> s.regs[IP] == 0)
      && (end.Exhausted? <==> i == 999 && s.regs[IP] != 0)
  {
    hide Handle;
  }

  lemma StepStops(code: seq<Byte>, base: nat, s: State)
    requires base <= s.regs[IP] < base + |code| && s.regs[IP] != 0
    ensures var o := Step(code, base, s);
      && (o.Halted? <==> code[s.regs[IP] - base] == 1) && !o.Exhausted?
      && (!o.Running? ==> o.state == s)
  {
    if Step(code, base, s).Failed? {
      FaultsSay(code, base, s);
    }
    hide Handle;
  }

  // A file that never exits ends with code 0, and nothing is shown but what its rounds show.
  lemma FileShows(code: seq<Byte>, base: Qword)
    ensures var start := Started(base, Processors.Fresh());
      var end, rounds := Exec(code, base, start, 0).state, Rounds(code, base, start, 0);
      && CodeFrom(rounds, 0, end.exitCode) && end.events == AllShown(rounds)
      && start.stack.index == 0 && forall r :: 0 <= r < 10 ==> start.regs[r] == 0
  {
    hide Exec, Rounds, AllShown, CodeFrom;
    RunsShow(code, base, Started(base, Processors.Fresh()), 0);
  }

  // ----- instructions -----

  // The register an instruction is for, if it changes one.
  function Target(i: Instruction): Option<Register> {
    match i
    case Mov(reg, _) => Some(reg)
    case Add(to, _) => Some(to)
    case Pop(reg) => Some(reg)
    case _ => None
  }

  // The sum of two registers, less what does not fit.
  predicate IsSum(x: int, y: int, sum: int) { sum == x + y || sum == x + y - QWORD }

  // A move loads its immediate, an addition adds modulo 2 to the 64, a push puts the low byte of
  // its register on the stack and a pop takes the top off it, whatever register but %ip they name;
  // nothing else changes besides %ip.
  lemma InstructionsDo(i: Instruction, s: State)
    requires Effect(i, s).Running?
    ensures var t := Effect(i, s).state;
      && (forall r: Register :: r != IP && Some(r) != Target(i) ==> t.regs[r] == s.regs[r])
      && match i
         case Mov(reg, value) => Live(t.stack) == Live(s.stack) && (reg != IP ==> t.regs[reg] == value)
         case Add(to, from) =>
           && Live(t.stack) == Live(s.stack)
           && (to != IP ==> IsSum(s.regs[to], s.regs[from], t.regs[to]))
         case Push(reg) =>
           exists b: Byte :: Live(t.stack) == Live(s.stack) + [b] && (s.regs[reg] - b) % 256 == 0
         case Pop(reg) =>
           exists b: Byte :: Live(s.stack) == Live(t.stack) + [b] && (reg != IP ==> t.regs[reg] == b)
         case _ => Live(t.stack) == Live(s.stack)
  {
    hide EncodeOne, Window;
    match i
    case Push(reg) =>
      var b: Byte := s.regs[reg] % 256;
      StackIsAList(s.stack, b);
      assert Live(Effect(i, s).state.stack) == Live(s.stack) + [b];
    case Pop(reg) =>
      StackIsAList(s.stack, 0);
    case _ =>
  }

  // The bytes of an instruction: its number, its registers, and an immediate of eight bytes, the
  // lowest first.
  lemma InstructionBytes(i: Instruction)
    ensures match i
            case NoOp => EncodeOne(i) == [0]
            case Halt => EncodeOne(i) == [1]
            case Mov(reg, value) =>
              && |EncodeOne(i)| == 10 && EncodeOne(i)[..2] == [2, reg]
              && Number(EncodeOne(i)[2..]) == value && EncodeOne(i)[2] == value % 256
            case Add(to, from) => EncodeOne(i) == [3, to, from]
            case Syscall => EncodeOne(i) == [4]
            case DumpRegisters => EncodeOne(i) == [5]
            case Push(reg) => EncodeOne(i) == [6, reg]
            case Pop(reg) => EncodeOne(i) == [7, reg]
            case DumpStack => EncodeOne(i) == [8]
  {
    hide Number, Power;
    if i.Mov? {
      EightBytes();
      NumberReadBack(i.value, 8);
      assert EncodeOne(i)[2..] == LittleEndian(i.value, 8);
      assert LittleEndian(i.value, 8)[0] == i.value % 256;
    }
  }

  // ----- failures -----

  // A round that fails changes nothing, and names what it failed at: the opcode or register that
  // does not exist, the number of the service or the kind to print, the empty stack that a pop
  // found, or an address that is not in the code.
  lemma FaultsSay(code: seq<Byte>, base: nat, s: State)
    requires Step(code, base, s).Failed?
    ensures Step(code, base, s).state == s
    ensures var at := s.regs[IP] - base;
      match Step(code, base, s).fault
      case IpOutOfRange => at >= |code|
      case OutsideProgram => at < |code|
      case InvalidOpcode(op) => 0 <= at < |code| && op == code[at] && op > 8
      case InvalidRegister(id) =>
        0 <= at < |code| - 1 && id >= 12 && ((code[at] in {2, 3, 6, 7} && code[at + 1] == id)
                                             || (code[at] == 3 && at < |code| - 2 && code[at + 2] == id))
      case EmptyStack => 0 <= at < |code| && code[at] == 7 && s.stack.index == 0
      case InvalidSyscall(number) => 0 <= at < |code| && code[at] == 4 && number == s.regs[0] && number > 3
      case InvalidType(kind) =>
        0 <= at < |code| && code[at] == 4 && s.regs[0] == 3 && kind == s.regs[1] && kind > 3
  {
    hide Window, Pushed, QwordAt, Wrapped, Sum;
  }
}
