// From the source text to the two ways of running a program.
module Pipeline {
  import opened Ast
  import opened Compile
  import opened Machine
  import opened Agreement
  import Drift
  import Grammar
  import Lexer
  import SourceTexts

  // Any text of an accepted program, read by the front end, behaves on the machine as it does in
  // the interpreter if the program is compilable; and only then, in a process that finds no
  // address of the file on its stack but that of its entry.
  lemma TextToTrace(source: string, program: seq<Stmt>, asserts: bool, junk: Junk, m: Mach, s: int, fuel: nat)
    requires SourceTexts.IsTextOf(source, program) && Accepted(program, asserts) && Fresh(m, s)
    ensures var lexed := Lexer.Lex(source, Lexer.START);
      lexed.Tokenized? && Grammar.ParseProgram(Lexer.TokensOf(lexed.tokens)).Ok?
    ensures var lexed := Lexer.Lex(source, Lexer.START);
      var read := Grammar.ParseProgram(Lexer.TokensOf(lexed.tokens)).value;
      && PrintlnCalls(read)
      && (Compilable(read) ==> RunsAsInterpreted(read, junk, m, fuel))
      && (Drift.OnlyEntry(m.mem, s) && RunsAsInterpreted(read, junk, m, fuel) ==> Compilable(read))
  {
    hide Lexer.Lex, Grammar.ParseProgram, SourceTexts.IsTextOf, RunsAsInterpreted, Compilable, Drift.OnlyEntry;
    SourceTexts.TextsOfPrograms(source, program);
    if Compilable(program) {
      CompilerSound(program, asserts, junk, m, s, fuel);
    }
    if Drift.OnlyEntry(m.mem, s) {
      CompilerCorrect(program, asserts, junk, m, s, fuel);
    }
  }
}
