/**
  The source language: a text is read as a program exactly if it is a layout of the tokens of one
  of the program's forms.
*/
module SourceTexts {
  import opened Ast
  import opened Tokens
  import opened Grammar
  import opened Printer
  import opened Lexer
  import opened Layout
  import opened Forms
  import opened FormImage
  import RoundTrip
  import SourceImage
  import ParserErrors
  import FrontEnd

  // ----- texts -----

  lemma LegalIsRegular(t: Token)
    requires Legal(t)
    ensures Regular(t) && t.typ != TEof
  {
  }

  lemma {:induction false} LayoutTokens(items: seq<Item>)
    requires IsLayout(items)
    ensures forall i :: 0 <= i < |ItemTokens(items)| ==> Legal(ItemTokens(items)[i])
  {
    hide Legal, Apart;
    if items != [] {
      LayoutTokens(items[1..]);
      ItemLegal(items[0], Laid(items[1..]));
    }
  }

  lemma ItemLegal(i: Item, after: string)
    requires Fits(i, after)
    ensures ItemToken(i).Some? ==> Legal(ItemToken(i).value)
  {
  }

  // The tokens of a layout, and the end of the file.
  lemma FileTokens(items: seq<Item>)
    requires IsLayout(items)
    ensures var ts := ItemTokens(items) + [Symbol(TEof)];
      Regulars(ts) && forall i :: 0 <= i < |ItemTokens(items)| ==> ItemTokens(items)[i].typ != TEof
  {
    hide Legal, Regular, IsLayout;
    LayoutTokens(items);
    var ts := ItemTokens(items) + [Symbol(TEof)];
    forall i | 0 <= i < |ts|
      ensures Regular(ts[i]) && (i < |ts| - 1 ==> ItemTokens(items)[i].typ != TEof)
    {
      if i < |ts| - 1 {
        assert ts[i] == ItemTokens(items)[i];
        LegalIsRegular(ts[i]);
      } else {
        EofIsRegular();
      }
    }
  }

  lemma EofIsRegular()
    ensures Regular(Symbol(TEof))
  {
  }

  // The text is a layout of the tokens of a form of the program.
  ghost predicate IsTextOf(source: string, program: seq<Stmt>) {
    exists items, ss {:trigger IsLayout(items), ProperStmts(ss)} ::
      && IsLayout(items) && Laid(items) == source && ProperStmts(ss) && StmtMeanings(ss) == program
      && StmtFormsTokens(ss, [Symbol(TEof)]) == ItemTokens(items) + [Symbol(TEof)]
  }

  // A source text is read as a program if and only if it is a layout of the tokens of one of the
  // program's forms.
  lemma TextsOfPrograms(source: string, program: seq<Stmt>)
    ensures SourceImage.ReadAs(source, program) <==> IsTextOf(source, program)
  {
    if SourceImage.ReadAs(source, program) {
      ReadTextIsForm(source, program);
    }
    if IsTextOf(source, program) {
      FormTextIsRead(source, program);
    }
  }

  lemma FormTextIsRead(source: string, program: seq<Stmt>)
    requires IsTextOf(source, program)
    ensures SourceImage.ReadAs(source, program)
  {
    hide Lex, IsLayout, Laid, Standing, ParseProgram, StmtMeanings, ProperStmts, StmtFormsTokens, TokensOf, ItemTokens;
    var items, ss :| IsLayout(items) && Laid(items) == source && ProperStmts(ss) && StmtMeanings(ss) == program
      && StmtFormsTokens(ss, [Symbol(TEof)]) == ItemTokens(items) + [Symbol(TEof)];
    AcceptedTexts(source);
    StandingTokens("", items);
    RoundTrip.FormsReadBack(ss, [Symbol(TEof)]);
  }

  lemma ReadTextIsForm(source: string, program: seq<Stmt>)
    requires SourceImage.ReadAs(source, program)
    ensures IsTextOf(source, program)
  {
    hide Lex, IsLayout, Laid, Standing, ParseProgram, StmtMeanings, ProperStmts, StmtFormsTokens, TokensOf;
    hide Regulars, ParserErrors.Opens, ItemTokens;
    AcceptedTexts(source);
    var items :| IsLayout(items) && Laid(items) == source;
    StandingTokens("", items);
    FileTokens(items);
    var ts := ItemTokens(items) + [Symbol(TEof)];
    var rest := ParseProgram(ts).rest;
    ProgramsAreForms(ts, program, rest);
    var ss :| ProperStmts(ss) && StmtMeanings(ss) == program && StmtFormsTokens(ss, rest) == ts;
    ParserErrors.Nothing(rest, rest);
    ParserErrors.StmtsBehind(ss, rest, rest, rest);
    OneEnd(ItemTokens(items), rest);
  }

  // With a single end-of-file token, the rest that starts with one is that token.
  lemma OneEnd(ts: seq<Token>, rest: seq<Token>)
    requires (forall i :: 0 <= i < |ts| ==> ts[i].typ != TEof) && At(rest, TEof)
    requires ParserErrors.Opens(ts + [Symbol(TEof)], rest, ts + [Symbol(TEof)])
    ensures rest == [Symbol(TEof)]
  {
    var all := ts + [Symbol(TEof)];
    assert rest[0] == all[|all| - |rest|];
  }

  // A text that the scanner accepts and the parser does not is refused for a token such that the
  // tokens in front of it begin some program; the parser's assertions never fail.
  lemma RefusedTexts(source: string)
    requires Lex(source, START).Tokenized?
    ensures var ts := TokensOf(Lex(source, START).tokens);
      ParseProgram(ts).Err? ==>
        var e := ParseProgram(ts).error;
        && !e.NoMoreTokens? && !e.BadInteger?
        && exists i, us :: 0 <= i < |ts| && ParserErrors.Names(e, ts[i..]) && ts[..i] <= us && ParseProgram(us).Ok?
  {
    hide Lex, IsLayout, Laid, Standing, ParseProgram, TokensOf, ItemTokens, Regulars, ParserErrors.Names;
    AcceptedTexts(source);
    var items :| IsLayout(items) && Laid(items) == source;
    StandingTokens("", items);
    FileTokens(items);
    LayoutTokens(items);
    FrontEnd.NeverOutOfTokens(source);
    var ts := ItemTokens(items) + [Symbol(TEof)];
    if ParseProgram(ts).Err? {
      ParserErrors.ErrorsAreFirst(ts);
      NumbersAreLegal(ItemTokens(items));
    }
  }

  lemma NumbersAreLegal(ts: seq<Token>)
    requires forall i :: 0 <= i < |ts| ==> Legal(ts[i])
    ensures var all := ts + [Symbol(TEof)];
      forall i :: 0 <= i < |all| ==> !ParserErrors.Names(BadInteger, all[i..])
  {
    var all := ts + [Symbol(TEof)];
    forall i | 0 <= i < |all|
      ensures !ParserErrors.Names(BadInteger, all[i..])
    {
      assert i < |ts| ==> Legal(ts[i]) && all[i..][0] == ts[i];
    }
  }
}
