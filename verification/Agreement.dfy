/** Compiled programs and the interpreter: when they print the same. */
module Agreement {
  import opened Ast
  import opened Asm
  import opened Eval
  import opened Compile
  import opened Runtime
  import opened Machine
  import opened CompileCorrect
  import Drift
  import Env
  import EvalProperties

  // ----- programs as the assembler reads them -----

  // A literal with the string that is seen for it.
  function Reread(e: Expr): (r: Expr)
    ensures Literal(r) <==> Literal(e)
  {
    if e.StrLit? then StrLit(Seen(e.s)) else e
  }

  function RereadArgs(args: seq<Expr>): (r: seq<Expr>)
    ensures |r| == |args| && forall i :: 0 <= i < |args| ==> (Literal(r[i]) <==> Literal(args[i]))
  {
    seq(|args|, i requires 0 <= i < |args| => Reread(args[i]))
  }

  function RereadCall(s: Stmt): (r: Stmt)
    requires PrintlnCall(s)
    ensures PrintlnCall(r) && ArgsOf(r) == RereadArgs(ArgsOf(s))
  {
    ExprStmt(Call(s.e.callee, RereadArgs(s.e.args)))
  }

  function RereadProgram(program: seq<Stmt>): (r: seq<Stmt>)
    requires PrintlnCalls(program)
    ensures PrintlnCalls(r) && |r| == |program|
    ensures forall i :: 0 <= i < |r| ==> ArgsOf(r[i]) == RereadArgs(ArgsOf(program[i]))
  {
    seq(|program|, i requires 0 <= i < |program| => RereadCall(program[i]))
  }

  lemma {:induction false} RereadStrings(args: seq<Expr>)
    ensures StringsOf(RereadArgs(args)) == AllSeen(StringsOf(args))
  {
    if args != [] {
      var n := |args| - 1;
      RereadStrings(args[..n]);
      assert RereadArgs(args)[..n] == RereadArgs(args[..n]);
    }
  }

  lemma {:induction false} RereadProgramStrings(program: seq<Stmt>)
    requires PrintlnCalls(program)
    ensures ProgramStrings(RereadProgram(program)) == AllSeen(ProgramStrings(program))
  {
    hide Seen, StringsOf, RereadArgs;
    if program == [] {
      assert AllSeen([]) == [];
    } else {
      hide AllSeen;
      var n := |program| - 1;
      RereadProgramStrings(program[..n]);
      RereadStrings(ArgsOf(program[n]));
      SeenTogether(ProgramStrings(program[..n]), StringsOf(ArgsOf(program[n])));
      assert RereadProgram(program)[..n] == RereadProgram(program[..n]);
    }
  }

  lemma SeenTogether(a: seq<string>, b: seq<string>)
    ensures AllSeen(a + b) == AllSeen(a) + AllSeen(b)
  {
    hide Seen;
  }

  // The code does not depend on the texts of the literals, only on their number.
  lemma {:induction false} SameArgsCode(args: seq<Expr>, k: nat)
    requires forall i :: 0 <= i < |args| ==> Literal(args[i])
    ensures ArgsCode(RereadArgs(args), k) == ArgsCode(args, k)
  {
    hide ExprCode, StringsOf, Seen;
    if args != [] {
      var n := |args| - 1;
      SameArgsCode(args[..n], k);
      RereadStrings(args[..n]);
      assert RereadArgs(args)[..n] == RereadArgs(args[..n]);
      SameExprCode(args[n], k + |StringsOf(args[..n])|);
    }
  }

  lemma SameExprCode(e: Expr, k: nat)
    requires Literal(e)
    ensures ExprCode(Reread(e), k) == ExprCode(e, k)
  {
    hide Seen;
  }

  lemma {:induction false} SameCode(program: seq<Stmt>)
    requires PrintlnCalls(program)
    ensures ProgramCode(RereadProgram(program)) == ProgramCode(program)
  {
    hide ArgsCode, LoadCode, FreeCode;
    if program != [] {
      var n := |program| - 1;
      SameCode(program[..n]);
      RereadProgramStrings(program[..n]);
      assert RereadProgram(program)[..n] == RereadProgram(program[..n]);
      SameArgsCode(ArgsOf(program[n]), |ProgramStrings(program[..n])|);
    }
  }

  // ----- what the interpreter prints -----

  function InterpreterPrintln(vs: seq<Val>): Output { ShownList(vs) + [Ch('\n')] }

  // The run-time library and the interpreter agree on calls whose arguments, except possibly the
  // last, are strings: print_val ends every other value with a line break.
  predicate StringsFirst(vs: seq<Val>) { forall i :: 0 <= i < |vs| - 1 ==> vs[i].VStr? }

  lemma ItemShown(v: Val)
    ensures PrintedItem(v) == if v.VStr? then Shown(v) else Shown(v) + [Ch('\n')]
  {
  }

  // The run-time library writes a blank between two arguments, and ends the line once more exactly
  // if all of them are strings.
  lemma RuntimeLines(vs: seq<Val>, ws: seq<Val>)
    requires ws != []
    ensures vs != [] ==> PrintedItems(vs + ws) == PrintedItems(vs) + [Ch(' ')] + PrintedItems(ws)
    ensures RuntimePrintln(ws) == PrintedItems(ws) + if exists v :: v in ws && !v.VStr? then [] else [Ch('\n')]
  {
    hide PrintedItem, PrintedItems;
    if vs != [] {
      ItemsSplit(vs, ws);
    }
    assert (exists v :: v in ws && !v.VStr?) <==> !AllStrings(ws);
  }

  lemma {:induction false} ItemsSplit(vs: seq<Val>, ws: seq<Val>)
    requires vs != [] && ws != []
    ensures PrintedItems(vs + ws) == PrintedItems(vs) + [Ch(' ')] + PrintedItems(ws)
    decreases |vs|
  {
    hide PrintedItem;
    assert (vs + ws)[1..] == vs[1..] + ws;
    var item := PrintedItem(vs[0]);
    if |vs| == 1 {
      assert vs[1..] + ws == ws && item + [] == item;
      Regrouped(item, [], ws);
    } else {
      ItemsSplit(vs[1..], ws);
      Regrouped(item, PrintedItems(vs[1..]), ws);
    }
  }

  lemma Regrouped(item: Output, rest: Output, ws: seq<Val>)
    ensures item + ([Ch(' ')] + PrintedItems(ws)) == item + [Ch(' ')] + PrintedItems(ws)
    ensures item + ([Ch(' ')] + (rest + [Ch(' ')] + PrintedItems(ws))) == item + ([Ch(' ')] + rest) + [Ch(' ')] + PrintedItems(ws)
  {
    hide PrintedItems;
  }

  // Behind a leading string both printers go on alike.
  lemma AfterString(vs: seq<Val>)
    requires |vs| >= 2 && vs[0].VStr?
    ensures var pre := Shown(vs[0]) + [Ch(' ')];
      && RuntimePrintln(vs) == pre + RuntimePrintln(vs[1..])
      && InterpreterPrintln(vs) == pre + InterpreterPrintln(vs[1..])
      && (StringsFirst(vs) <==> StringsFirst(vs[1..]))
  {
    hide PrintedItem, Shown;
    ItemShown(vs[0]);
    assert forall i :: 0 < i < |vs| ==> vs[i] == vs[1..][i - 1];
    assert AllStrings(vs) <==> AllStrings(vs[1..]);
  }

  lemma {:induction false} PrintersAgree(vs: seq<Val>)
    requires StringsFirst(vs)
    ensures RuntimePrintln(vs) == InterpreterPrintln(vs)
  {
    hide PrintedItem, Shown;
    if |vs| >= 2 {
      PrintersAgree(vs[1..]);
      AfterString(vs);
    } else if |vs| == 1 {
      ItemShown(vs[0]);
    }
  }

  ghost predicate Differ(a: Output, b: Output) {
    exists p :: 0 <= p < |a| && p < |b| && a[p] != b[p]
  }

  lemma DifferInContext(pre: Output, a: Output, b: Output, x: Output, y: Output)
    requires Differ(a, b)
    ensures Differ(pre + a + x, pre + b + y)
  {
    var p :| 0 <= p < |a| && p < |b| && a[p] != b[p];
    assert (pre + a + x)[|pre| + p] == a[p] && (pre + b + y)[|pre| + p] == b[p];
  }

  lemma {:induction false} PrintersDiffer(vs: seq<Val>)
    requires !StringsFirst(vs)
    ensures Differ(RuntimePrintln(vs), InterpreterPrintln(vs))
  {
    hide PrintedItem, Shown;
    ItemShown(vs[0]);
    if vs[0].VStr? {
      AfterString(vs);
      PrintersDiffer(vs[1..]);
      DifferInContext(Shown(vs[0]) + [Ch(' ')], RuntimePrintln(vs[1..]), InterpreterPrintln(vs[1..]), [], []);
      assert forall o: Output :: o + [] == o;
    } else {
      var p := |Shown(vs[0])|;
      assert RuntimePrintln(vs)[p] == Ch('\n') && InterpreterPrintln(vs)[p] == Ch(' ');
    }
  }

  // ----- the interpreter on compiled programs -----

  // The condition a caller can check: an argument is given, and all but the last are strings.
  predicate GoodCall(args: seq<Expr>) {
    args != [] && forall i :: 0 <= i < |args| - 1 ==> args[i].StrLit?
  }

  lemma {:induction false} LiteralArgs(args: seq<Expr>, env: Env.Env, out: Output)
    requires forall i :: 0 <= i < |args| ==> Literal(args[i])
    ensures EvalArgs(args, env, out) == (Done(ValuesOf(args)), env, out)
  {
    if args != [] {
      LiteralArgs(args[1..], env, out);
      assert ValuesOf(args) == [ValueOf(args[0])] + ValuesOf(args[1..]);
      assert EvalExpr(args[0], env, out) == (Done(ValueOf(args[0])), env, out);
    } else {
      assert ValuesOf(args) == [];
    }
  }

  lemma InterpretedCall(s: Stmt, env: Env.Env, out: Output, fuel: nat)
    requires PrintlnCall(s) && Env.Resolve(env, "println") == Some(VBuiltin("println"))
    ensures Exec(s, env, out, fuel)
         == (if ArgsOf(s) == [] then Failed(NoArguments) else Done(VNull), env, out + InterpreterPrintln(ValuesOf(ArgsOf(s))))
  {
    hide EvalArgs, ShownList;
    LiteralArgs(ArgsOf(s), env, out);
    var vs := ValuesOf(ArgsOf(s));
    assert vs == [] <==> ArgsOf(s) == [];
    assert out + ShownList(vs) + [Ch('\n')] == out + InterpreterPrintln(vs);
  }

  // ----- calls of misread literals -----

  // What println makes of the values that are seen, next to what the interpreter prints of those
  // that were written: the same if the call is good and its strings are plain, and different at
  // some position otherwise.
  lemma {:induction false} CallsCompare(args: seq<Expr>)
    requires args != [] && forall i :: 0 <= i < |args| ==> Literal(args[i])
    requires forall i :: 0 <= i < |args| && args[i].StrLit? ==> ReadString(Quoted(args[i].s)).Some?
    ensures var seen, written := RuntimePrintln(ValuesOf(RereadArgs(args))), InterpreterPrintln(ValuesOf(args));
      if GoodCall(args) && PlainArgs(args) then seen == written else Differ(seen, written)
    decreases |args|
  {
    hide PrintedItem, Shown, Plain, Seen, RuntimePrintln, InterpreterPrintln, GoodCall, PlainArgs, Differ;
    var vs, ws := ValuesOf(args), ValuesOf(RereadArgs(args));
    if |args| >= 2 && args[0].StrLit? && Seen(args[0].s) == args[0].s {
      TailOfCall(args);
      SeenAsWritten(args[0].s);
      CallsCompare(args[1..]);
      AfterString(vs);
      AfterString(ws);
      if !(GoodCall(args) && PlainArgs(args)) {
        DifferInContext(Shown(vs[0]) + [Ch(' ')], RuntimePrintln(ws[1..]), InterpreterPrintln(vs[1..]), [], []);
        assert forall o: Output :: o + [] == o;
      }
    } else {
      FirstDecides(args);
    }
  }

  // The strings among the arguments are seen as they are written.
  predicate PlainArgs(args: seq<Expr>) {
    forall i :: 0 <= i < |args| && args[i].StrLit? ==> Plain(args[i].s)
  }

  lemma TailOfCall(args: seq<Expr>)
    requires |args| >= 2 && (forall i :: 0 <= i < |args| ==> Literal(args[i])) && args[0].StrLit?
    ensures ValuesOf(args)[1..] == ValuesOf(args[1..]) && ValuesOf(RereadArgs(args))[1..] == ValuesOf(RereadArgs(args[1..]))
    ensures GoodCall(args) <==> GoodCall(args[1..])
    ensures PlainArgs(args) <==> Plain(args[0].s) && PlainArgs(args[1..])
  {
    assert RereadArgs(args)[1..] == RereadArgs(args[1..]);
    assert forall i :: 0 < i < |args| ==> args[i] == args[1..][i - 1];
  }

  // The first argument is the last, or printed differently.
  lemma FirstDecides(args: seq<Expr>)
    requires args != [] && forall i :: 0 <= i < |args| ==> Literal(args[i])
    requires forall i :: 0 <= i < |args| && args[i].StrLit? ==> ReadString(Quoted(args[i].s)).Some?
    requires |args| >= 2 ==> !args[0].StrLit? || Seen(args[0].s) != args[0].s
    ensures var seen, written := RuntimePrintln(ValuesOf(RereadArgs(args))), InterpreterPrintln(ValuesOf(args));
      if GoodCall(args) && PlainArgs(args) then seen == written else Differ(seen, written)
  {
    hide PrintedItem, Plain, Seen;
    var vs, ws := ValuesOf(args), ValuesOf(RereadArgs(args));
    ItemShown(ws[0]);
    if args[0].StrLit? && Seen(args[0].s) != args[0].s {
      SeenAsWritten(args[0].s);
      var sep := if |args| == 1 then '\n' else ' ';
      SeenDiffers(args[0].s, sep);
      assert Text(Seen(args[0].s)) + [Ch(sep)] <= RuntimePrintln(ws);
      assert Text(args[0].s) <= InterpreterPrintln(vs);
      DifferInPrefix(Text(Seen(args[0].s)) + [Ch(sep)], Text(args[0].s), RuntimePrintln(ws), InterpreterPrintln(vs));
    } else if |args| >= 2 {
      PrintersDifferAtFirst(vs, ws);
      assert !GoodCall(args);
    } else if args[0].StrLit? {
      SeenAsWritten(args[0].s);
      PrintersAgree(vs);
      assert ws == vs;
    } else {
      PrintersAgree(vs);
      assert ws == vs;
    }
  }

  lemma PrintersDifferAtFirst(vs: seq<Val>, ws: seq<Val>)
    requires |vs| == |ws| >= 2 && !vs[0].VStr? && ws[0] == vs[0]
    ensures Differ(RuntimePrintln(ws), InterpreterPrintln(vs))
  {
    hide PrintedItem, Shown;
    ItemShown(ws[0]);
    var p := |Shown(vs[0])|;
    assert RuntimePrintln(ws)[p] == Ch('\n') && InterpreterPrintln(vs)[p] == Ch(' ');
  }

  lemma SeenDiffers(s: string, sep: char)
    requires ReadString(Quoted(s)).Some? && !Plain(s) && Separator(sep)
    ensures Differ(Text(Seen(s)) + [Ch(sep)], Text(s))
  {
    assert Quoted(s)[1..] == Tail(s);
    MisreadingShows(s, sep);
    BackslashShortens(s);
    QuotingIsFaithful(s);
    hide ReadString, Quoted, Tail;
    var t := Seen(s) + [sep];
    assert |t| <= |s|;
    assert t != s[..|t|];
    var p :| 0 <= p < |t| && t[p] != s[..|t|][p];
    assert (Text(Seen(s)) + [Ch(sep)])[p] == Ch(t[p]) && Text(s)[p] == Ch(s[p]);
  }

  lemma DifferInPrefix(a: Output, b: Output, x: Output, y: Output)
    requires Differ(a, b) && a <= x && b <= y
    ensures Differ(x, y)
  {
    var p :| 0 <= p < |a| && p < |b| && a[p] != b[p];
    assert x[p] == a[p] && y[p] == b[p];
  }

  // The trace of a program, call by call from the front.
  function TraceFrom(ss: seq<Stmt>): Output
    requires PrintlnCalls(ss)
  {
    if ss == [] then [] else RuntimePrintln(AsPrinted(ValuesOf(ArgsOf(ss[0])))) + TraceFrom(ss[1..])
  }

  lemma {:induction false} TracesAgree(ss: seq<Stmt>)
    requires PrintlnCalls(ss)
    ensures TraceFrom(ss) == ProgramTrace(ss)
  {
    hide RuntimePrintln, AsPrinted;
    if |ss| > 1 {
      var n := |ss| - 1;
      TracesAgree(ss[..n]);
      TracesAgree(ss[1..]);
      assert ss[1..][..n - 1] == ss[1..n] == ss[..n][1..];
      TracesAgree(ss[1..n]);
    } else if |ss| == 1 {
      assert ss[1..] == [] == ss[..0];
    }
  }

  // The exit status of the interpreter.
  function ExitStatus(r: Outcome<Val>): int {
    match r
    case Done(_) => 0
    case Exited(code) => code
    case _ => 1
  }

  // ----- whole programs -----

  // All strings of the program can be read by the assembler.
  predicate Readable(ss: seq<Stmt>)
    requires PrintlnCalls(ss)
  {
    forall i :: 0 <= i < |ss| ==>
      forall j :: 0 <= j < |ArgsOf(ss[i])| && ArgsOf(ss[i])[j].StrLit? ==> ReadString(Quoted(ArgsOf(ss[i])[j].s)).Some?
  }

  // Every call has an argument, none but the last are numbers, and no string has a backslash.
  predicate GoodAndPlain(ss: seq<Stmt>)
    requires PrintlnCalls(ss)
  {
    forall i :: 0 <= i < |ss| ==> GoodCall(ArgsOf(ss[i])) && PlainArgs(ArgsOf(ss[i]))
  }

  // The interpreter's output on a program is the trace of the program that the assembler reads
  // if all calls are good and all strings plain. The first call for which this fails makes the
  // interpreter fail, or the two outputs differ at some position.
  lemma {:induction false} InterpretedProgram(ss: seq<Stmt>, last: Val, env: Env.Env, out: Output, fuel: nat)
    requires PrintlnCalls(ss) && AtMostFive(ss) && Readable(ss)
    requires Env.Resolve(env, "println") == Some(VBuiltin("println"))
    ensures var (r, _, out') := ExecSeq(ss, last, env, out, fuel);
      var seen := out + TraceFrom(RereadProgram(ss));
      && out <= out' && (r.Done? || r.Failed?)
      && (if GoodAndPlain(ss) then r.Done? && out' == seen else r.Failed? || Differ(seen, out'))
  {
    hide GoodCall, PlainArgs, RuntimePrintln, InterpreterPrintln, Exec, RereadArgs, AsPrinted, Differ, ReadString;
    hide Quoted;
    if ss != [] {
      var args := ArgsOf(ss[0]);
      var vs, ws := ValuesOf(args), ValuesOf(RereadArgs(args));
      var rest := ss[1..];
      var out1 := out + InterpreterPrintln(vs);
      InterpretedCall(ss[0], env, out, fuel);
      RereadCount(args);
      UpToSixInOrder(ws);
      NoGoodCall(args);
      assert forall i :: 0 < i < |ss| ==> ss[i] == rest[i - 1];
      assert RereadProgram(ss)[1..] == RereadProgram(rest);
      var tail := TraceFrom(RereadProgram(rest));
      assert TraceFrom(RereadProgram(ss)) == RuntimePrintln(ws) + tail;
      if args != [] {
        InterpretedProgram(rest, VNull, env, out1, fuel);
        var out' := ExecSeq(rest, VNull, env, out1, fuel).2;
        CallsCompare(args);
        if GoodCall(args) && PlainArgs(args) {
          assert out + (RuntimePrintln(ws) + tail) == out1 + tail;
        } else {
          var more := out'[|out1|..];
          assert out' == out + InterpreterPrintln(vs) + more;
          DifferInContext(out, RuntimePrintln(ws), InterpreterPrintln(vs), tail, more);
          assert out + (RuntimePrintln(ws) + tail) == out + RuntimePrintln(ws) + tail;
        }
      }
    } else {
      assert out + [] == out;
    }
  }

  lemma NoGoodCall(args: seq<Expr>)
    ensures args == [] ==> !GoodCall(args)
  {
  }

  lemma RereadCount(args: seq<Expr>)
    requires forall i :: 0 <= i < |args| ==> Literal(args[i])
    ensures |ValuesOf(RereadArgs(args))| == |ValuesOf(args)| == |args|
  {
  }

  // The interpreter ends well with the output of the program that the assembler reads exactly
  // when all calls are good and all strings plain.
  lemma InterpreterBehaviour(program: seq<Stmt>, fuel: nat)
    requires PrintlnCalls(program) && AtMostFive(program) && Readable(program)
    ensures var (r, _, out) := RunProgram(program, fuel);
      out == ProgramTrace(RereadProgram(program)) && ExitStatus(r) == 0 <==> GoodAndPlain(program)
  {
    hide GoodAndPlain, Readable, ExecSeq;
    EvalProperties.ScopesBindBuiltins(Env.Nil);
    PrintlnIsBuiltin();
    InterpretedProgram(program, VNull, Env.GlobalEnv(), [], fuel);
    TracesAgree(RereadProgram(program));
    assert [] + TraceFrom(RereadProgram(program)) == ProgramTrace(RereadProgram(program));
  }

  lemma PrintlnIsBuiltin()
    ensures Env.Resolve(Env.GlobalEnv(), "println") == Some(VBuiltin("println"))
  {
    hide Env.WithBuiltins;
    EvalProperties.ScopesBindBuiltins(Env.Nil);
    assert Env.Builtins()[0] == "println";
  }

  // The strings of a program are those of its calls.
  lemma {:induction false} StringsInArgs(args: seq<Expr>)
    ensures forall j :: 0 <= j < |args| && args[j].StrLit? ==> args[j].s in StringsOf(args)
    ensures forall s :: s in StringsOf(args) ==> exists j :: 0 <= j < |args| && args[j] == StrLit(s)
  {
    if args != [] {
      StringsInArgs(args[..|args| - 1]);
    }
  }

  lemma {:induction false} StringsInProgram(program: seq<Stmt>)
    requires PrintlnCalls(program)
    ensures AllPlain(ProgramStrings(program)) <==> forall i :: 0 <= i < |program| ==> PlainArgs(ArgsOf(program[i]))
    ensures (forall s :: s in ProgramStrings(program) ==> ReadString(Quoted(s)).Some?) <==> Readable(program)
  {
    hide ReadString, Quoted, Plain, StringsOf;
    if program != [] {
      var n := |program| - 1;
      var init, args := program[..n], ArgsOf(program[n]);
      StringsInProgram(init);
      StringsInArgs(args);
      assert AllPlain(ProgramStrings(program)) <==> AllPlain(ProgramStrings(init)) && AllPlain(StringsOf(args)) by {
        SplitPlain(ProgramStrings(init), StringsOf(args));
      }
      PlainStrings(args);
    }
  }

  lemma PlainStrings(args: seq<Expr>)
    ensures AllPlain(StringsOf(args)) <==> PlainArgs(args)
  {
    hide Plain, StringsOf;
    StringsInArgs(args);
    var strings := StringsOf(args);
    forall i | 0 <= i < |strings| && PlainArgs(args)
      ensures Plain(strings[i])
    {
      assert strings[i] in strings;
      var j :| 0 <= j < |args| && args[j] == StrLit(strings[i]);
    }
    forall j | 0 <= j < |args| && args[j].StrLit? && AllPlain(strings)
      ensures Plain(args[j].s)
    {
      assert args[j].s in strings;
    }
  }

  lemma SplitPlain(a: seq<string>, b: seq<string>)
    ensures AllPlain(a + b) <==> AllPlain(a) && AllPlain(b)
  {
    hide Plain;
    assert forall i :: 0 <= i < |a| ==> (a + b)[i] == a[i];
    assert forall i :: 0 <= i < |b| ==> (a + b)[|a| + i] == b[i];
  }

  lemma {:induction false} AssembledIsRead(strings: seq<string>)
    requires Assemble(DataLines(strings, 0)).Some?
    ensures forall s :: s in strings ==> ReadString(Quoted(s)).Some?
  {
    hide ReadString, Quoted, LabelName;
    if strings != [] {
      var n := |strings| - 1;
      assert DataLines(strings, 0)[..n] == DataLines(strings[..n], 0);
      AssembledIsRead(strings[..n]);
    }
  }

  // The file of a program assembles, and on the machine it halts with the output and the exit
  // status that the interpreter gives the program.
  ghost predicate RunsAsInterpreted(program: seq<Stmt>, junk: Junk, m: Mach, fuel: nat)
    requires PrintlnCalls(program)
  {
    var data := Assemble(DataLines(ProgramStrings(program), 0));
    data.Some? && exists n: nat :: EndsAsInterpreted(Steps(n, FileLines(program), data.value, junk, Running(1, m)), program, fuel)
  }

  ghost predicate EndsAsInterpreted(end: Status, program: seq<Stmt>, fuel: nat) {
    var (r, _, out) := RunProgram(program, fuel);
    end.Halted? && end.final.out == out && end.code == ExitStatus(r)
  }

  // A process at its start has printed and allocated nothing.
  ghost predicate Fresh(m: Mach, s: int) {
    m.ok && Get(m, RSP) == Num(s) && m.heap == map[] && m.next == 0 && m.freed == [] && m.out == []
  }

  // Every call has one to five arguments, all but its last one strings, and no string has a
  // backslash.
  predicate Compilable(program: seq<Stmt>)
    requires PrintlnCalls(program)
  {
    && AtMostFive(program) && AllPlain(ProgramStrings(program))
    && forall i :: 0 <= i < |program| ==> GoodCall(ArgsOf(program[i]))
  }

  // Compiler correctness, whatever the stack, the registers and the library calls leave: an
  // accepted program with good calls behaves compiled as it does interpreted.
  lemma CompilerSound(program: seq<Stmt>, asserts: bool, junk: Junk, m: Mach, s: int, fuel: nat)
    requires Accepted(program, asserts) && Compilable(program) && Fresh(m, s)
    ensures RunsAsInterpreted(program, junk, m, fuel)
  {
    hide GoodCall, Plain, ReadString, Quoted, ProgramStrings, Covers, DataLines, Steps, FileLines, RunProgram, ProgramTrace,
      Assemble, PlainArgs, Readable, Fresh;
    var strings := ProgramStrings(program);
    DataAssembles(strings);
    StringsInProgram(program);
    AssembledIsRead(strings);
    FileOfSeen(program, Assemble(DataLines(strings, 0)).value, junk, m, s);
    InterpreterBehaviour(program, fuel);
  }

  // And no other accepted program does, in a process that finds no address of the file on its
  // stack but that of its entry.
  lemma CompilerCorrect(program: seq<Stmt>, asserts: bool, junk: Junk, m: Mach, s: int, fuel: nat)
    requires Accepted(program, asserts) && Fresh(m, s) && Drift.OnlyEntry(m.mem, s)
    ensures RunsAsInterpreted(program, junk, m, fuel) <==> Compilable(program)
  {
    hide GoodCall, Plain, ReadString, Quoted, ProgramStrings, Covers, DataLines, Steps, FileLines, RunProgram, ProgramTrace,
      Assemble, PlainArgs, Readable, Drift.OnlyEntry;
    if Compilable(program) {
      CompilerSound(program, asserts, junk, m, s, fuel);
    } else if RunsAsInterpreted(program, junk, m, fuel) {
      var strings := ProgramStrings(program);
      var data := Assemble(DataLines(strings, 0)).value;
      DataAssembles(strings);
      StringsInProgram(program);
      AssembledIsRead(strings);
      var lines, start := FileLines(program), Running(1, m);
      var n: nat :| EndsAsInterpreted(Steps(n, lines, data, junk, start), program, fuel);
      if AtMostFive(program) {
        FileOfSeen(program, data, junk, m, s);
        Drift.HaltsOnce(n, StepCount(program), lines, data, junk, start);
        InterpreterBehaviour(program, fuel);
      } else {
        FileNeverHalts(program, data, junk, m, s, n);
      }
    }
  }

  // The run of a file is the run of the program that the assembler reads.
  lemma SameFile(program: seq<Stmt>)
    requires PrintlnCalls(program)
    ensures var read := RereadProgram(program);
      && FileLines(read) == FileLines(program) && StepCount(read) == StepCount(program)
      && ProgramStrings(read) == AllSeen(ProgramStrings(program)) && (AtMostFive(read) <==> AtMostFive(program))
  {
    hide ProgramCode, ProgramStrings, RereadArgs, Seen;
    SameCode(program);
    RereadProgramStrings(program);
    RereadCounts(program);
  }

  lemma FileOfSeen(program: seq<Stmt>, data: Data, junk: Junk, m: Mach, s: int)
    requires PrintlnCalls(program) && AtMostFive(program) && Fresh(m, s)
    requires Covers(data, 0, AllSeen(ProgramStrings(program)))
    ensures var end := Steps(StepCount(program), FileLines(program), data, junk, Running(1, m));
      end.Halted? && end.code == 0 && end.final.out == ProgramTrace(RereadProgram(program))
  {
    hide Seen, Covers, Steps, ProgramTrace, ProgramStrings, RereadArgs, FileLines, StepCount;
    SameFile(program);
    FileRun(RereadProgram(program), data, junk, m, s);
  }

  lemma FileNeverHalts(program: seq<Stmt>, data: Data, junk: Junk, m: Mach, s: int, n: nat)
    requires PrintlnCalls(program) && !AtMostFive(program) && Fresh(m, s) && Drift.OnlyEntry(m.mem, s)
    requires Covers(data, 0, AllSeen(ProgramStrings(program)))
    ensures !Steps(n, FileLines(program), data, junk, Running(1, m)).Halted?
  {
    hide Seen, Covers, Steps, ProgramStrings, RereadArgs, FileLines, Drift.OnlyEntry;
    SameFile(program);
    Drift.FileDrifts(RereadProgram(program), data, junk, m, s, n);
  }

  lemma RereadCounts(program: seq<Stmt>)
    requires PrintlnCalls(program)
    ensures AtMostFive(RereadProgram(program)) <==> AtMostFive(program)
  {
    assert forall i :: 0 <= i < |program| ==> |ArgsOf(RereadProgram(program)[i])| == |ArgsOf(program[i])|;
  }
}
