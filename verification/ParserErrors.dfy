/**
  The parser complains at the first token that it cannot take: every error names a token such that
  some program begins with the tokens in front of it.
*/
module ParserErrors {
  import opened Ast
  import opened Tokens
  import opened Grammar
  import opened Printer
  import opened Forms
  import opened FormImage
  import RoundTrip
  import Decimal

  // bad is the rest of ts from some token on, and us begins with the tokens of ts in front of it.
  predicate Opens(ts: seq<Token>, bad: seq<Token>, us: seq<Token>) {
    |bad| <= |ts| && ts[|ts| - |bad|..] == bad && ts[..|ts| - |bad|] <= us
  }

  lemma Nothing(ts: seq<Token>, us: seq<Token>)
    ensures Opens(ts, ts, us)
  {
  }

  lemma Behind(p: seq<Token>, ts: seq<Token>, bad: seq<Token>, us: seq<Token>)
    requires Opens(ts, bad, us)
    ensures Opens(p + ts, bad, p + us)
  {
    assert (p + ts)[..|p + ts| - |bad|] == p + ts[..|ts| - |bad|];
  }

  // ----- forms in front of what follows them -----

  lemma CommaBehind(comma: bool, ts: seq<Token>, bad: seq<Token>, us: seq<Token>)
    requires Opens(ts, bad, us)
    ensures Opens(Comma(comma, ts), bad, Comma(comma, us))
  {
    hide Opens, Symbol;
    Behind([Symbol(TComma)], ts, bad, us);
  }

  lemma {:induction false} FormBehind(f: Form, ts: seq<Token>, bad: seq<Token>, us: seq<Token>)
    requires Opens(ts, bad, us)
    ensures Opens(FormTokens(f, ts), bad, FormTokens(f, us))
    decreases f
  {
    hide Opens, Symbol, ArgsTokens, ElemsTokens;
    match f
    case Word(token) => Behind([token], ts, bad, us);
    case Grouped(inner) =>
      Behind([Symbol(TParenClose)], ts, bad, us);
      var ts1, us1 := [Symbol(TParenClose)] + ts, [Symbol(TParenClose)] + us;
      FormBehind(inner, ts1, bad, us1);
      Behind([Symbol(TParenOpen)], FormTokens(inner, ts1), bad, FormTokens(inner, us1));
    case Apply(callee, args) =>
      Behind([Symbol(TParenClose)], ts, bad, us);
      var ts1, us1 := [Symbol(TParenClose)] + ts, [Symbol(TParenClose)] + us;
      ArgsBehind(args, ts1, bad, us1);
      Behind([Symbol(TParenOpen)], ArgsTokens(args, ts1), bad, ArgsTokens(args, us1));
      Behind([Name(callee)], [Symbol(TParenOpen)] + ArgsTokens(args, ts1), bad, [Symbol(TParenOpen)] + ArgsTokens(args, us1));
    case Infix(op, left, right) =>
      FormBehind(right, ts, bad, us);
      var ts1, us1 := FormTokens(right, ts), FormTokens(right, us);
      Behind([OperatorToken(op)], ts1, bad, us1);
      FormBehind(left, [OperatorToken(op)] + ts1, bad, [OperatorToken(op)] + us1);
    case Store(target, stored) =>
      FormBehind(stored, ts, bad, us);
      var ts1, us1 := FormTokens(stored, ts), FormTokens(stored, us);
      Behind([Symbol(TAssign)], ts1, bad, us1);
      Behind([Name(target)], [Symbol(TAssign)] + ts1, bad, [Symbol(TAssign)] + us1);
    case Items(elems, comma) =>
      Behind([Symbol(TSquareClose)], ts, bad, us);
      var ts1, us1 := [Symbol(TSquareClose)] + ts, [Symbol(TSquareClose)] + us;
      ElemsBehind(elems, comma, ts1, bad, us1);
      var ts2, us2 := ElemsTokens(elems, comma, ts1), ElemsTokens(elems, comma, us1);
      Behind([Symbol(TSquareOpen)], ts2, bad, us2);
      Behind([Symbol(TArray)], [Symbol(TSquareOpen)] + ts2, bad, [Symbol(TSquareOpen)] + us2);
  }

  lemma {:induction false} ArgsBehind(args: seq<Arg>, ts: seq<Token>, bad: seq<Token>, us: seq<Token>)
    requires Opens(ts, bad, us)
    ensures Opens(ArgsTokens(args, ts), bad, ArgsTokens(args, us))
    decreases args
  {
    hide Opens, ArgTokens;
    if args != [] {
      ArgsBehind(args[1..], ts, bad, us);
      ArgBehind(args[0], ArgsTokens(args[1..], ts), bad, ArgsTokens(args[1..], us));
    }
  }

  lemma {:induction false} ArgBehind(a: Arg, ts: seq<Token>, bad: seq<Token>, us: seq<Token>)
    requires Opens(ts, bad, us)
    ensures Opens(ArgTokens(a, ts), bad, ArgTokens(a, us))
    decreases a
  {
    hide Opens, Comma;
    CommaBehind(a.comma, ts, bad, us);
    FormBehind(a.form, Comma(a.comma, ts), bad, Comma(a.comma, us));
  }

  lemma {:induction false} ElemsBehind(elems: seq<Form>, comma: bool, ts: seq<Token>, bad: seq<Token>, us: seq<Token>)
    requires Opens(ts, bad, us)
    ensures Opens(ElemsTokens(elems, comma, ts), bad, ElemsTokens(elems, comma, us))
    decreases elems
  {
    hide Opens, Comma, FormTokens, Symbol;
    if |elems| == 1 {
      CommaBehind(comma, ts, bad, us);
      FormBehind(elems[0], Comma(comma, ts), bad, Comma(comma, us));
    } else if |elems| > 1 {
      ElemsBehind(elems[1..], comma, ts, bad, us);
      var ts1, us1 := ElemsTokens(elems[1..], comma, ts), ElemsTokens(elems[1..], comma, us);
      Behind([Symbol(TComma)], ts1, bad, us1);
      FormBehind(elems[0], [Symbol(TComma)] + ts1, bad, [Symbol(TComma)] + us1);
    }
  }

  lemma {:induction false} SemicolonsBehind(n: nat, ts: seq<Token>, bad: seq<Token>, us: seq<Token>)
    requires Opens(ts, bad, us)
    ensures Opens(Semicolons(n, ts), bad, Semicolons(n, us))
  {
    hide Opens, Symbol;
    if n > 0 {
      SemicolonsBehind(n - 1, ts, bad, us);
      Behind([Symbol(TSemicolon)], Semicolons(n - 1, ts), bad, Semicolons(n - 1, us));
    }
  }

  lemma {:induction false} ParamsBehind(params: seq<string>, comma: bool, ts: seq<Token>, bad: seq<Token>, us: seq<Token>)
    requires Opens(ts, bad, us)
    ensures Opens(ParamTokens(params, comma, ts), bad, ParamTokens(params, comma, us))
  {
    hide Opens, Symbol, Comma;
    if |params| == 1 {
      CommaBehind(comma, ts, bad, us);
      Behind([Name(params[0])], Comma(comma, ts), bad, Comma(comma, us));
    } else if |params| > 1 {
      ParamsBehind(params[1..], comma, ts, bad, us);
      var ts1, us1 := ParamTokens(params[1..], comma, ts), ParamTokens(params[1..], comma, us);
      Behind([Symbol(TComma)], ts1, bad, us1);
      Behind([Name(params[0])], [Symbol(TComma)] + ts1, bad, [Symbol(TComma)] + us1);
    }
  }

  lemma CountBehind(count: Option<Count>, named: Option<string>, ts: seq<Token>, bad: seq<Token>, us: seq<Token>)
    requires Opens(ts, bad, us)
    ensures Opens(CountTokens(count, named, ts), bad, CountTokens(count, named, us))
  {
    hide Opens, Symbol, FormTokens;
    var ts1, us1 := ts, us;
    if named.Some? {
      Behind([Name(named.value)], ts, bad, us);
      ts1, us1 := [Name(named.value)] + ts, [Name(named.value)] + us;
    }
    if count.Some? {
      Behind([Symbol(TParenClose)], ts1, bad, us1);
      ts1, us1 := [Symbol(TParenClose)] + ts1, [Symbol(TParenClose)] + us1;
      if count.value.asName.Some? {
        var name := Name(count.value.asName.value);
        Behind([name], ts1, bad, us1);
        Behind([Symbol(TAs)], [name] + ts1, bad, [name] + us1);
        ts1, us1 := [Symbol(TAs)] + ([name] + ts1), [Symbol(TAs)] + ([name] + us1);
      }
      FormBehind(count.value.form, ts1, bad, us1);
      Behind([Symbol(TParenOpen)], FormTokens(count.value.form, ts1), bad, FormTokens(count.value.form, us1));
    }
  }

  // The semicolon of a statement and those behind it.
  lemma EndBehind(n: nat, ts: seq<Token>, bad: seq<Token>, us: seq<Token>)
    requires Opens(ts, bad, us)
    ensures Opens([Symbol(TSemicolon)] + Semicolons(n, ts), bad, [Symbol(TSemicolon)] + Semicolons(n, us))
  {
    hide Opens, Symbol, Semicolons;
    SemicolonsBehind(n, ts, bad, us);
    Behind([Symbol(TSemicolon)], Semicolons(n, ts), bad, Semicolons(n, us));
  }

  lemma {:induction false} StmtBehind(s: StmtForm, ts: seq<Token>, bad: seq<Token>, us: seq<Token>)
    requires Opens(ts, bad, us)
    ensures Opens(StmtFormTokens(s, ts), bad, StmtFormTokens(s, us))
    decreases s, 1
  {
    hide Opens, Symbol, FormTokens, StmtFormsTokens, CountTokens, ParamTokens, Semicolons;
    match s
    case ExprForm(e, extra) =>
      EndBehind(extra, ts, bad, us);
      FormBehind(e, [Symbol(TSemicolon)] + Semicolons(extra, ts), bad, [Symbol(TSemicolon)] + Semicolons(extra, us));
    case DeclForm(name, isConst, init, extra) =>
      EndBehind(extra, ts, bad, us);
      InitBehind(Symbol(if isConst then TConst else TVar), name, init,
                 [Symbol(TSemicolon)] + Semicolons(extra, ts), bad, [Symbol(TSemicolon)] + Semicolons(extra, us));
    case FnForm(fname, params, comma, body, extra) =>
      BracesBehind(body, extra, ts, bad, us);
      HeadBehind(fname, params, comma, [Symbol(TBraceOpen)] + StmtFormsTokens(body, [Symbol(TBraceClose)] + Semicolons(extra, ts)), bad,
                 [Symbol(TBraceOpen)] + StmtFormsTokens(body, [Symbol(TBraceClose)] + Semicolons(extra, us)));
    case BlockForm(stmts, extra) =>
      BracesBehind(stmts, extra, ts, bad, us);
    case IfForm(cond, thn, els) =>
      var ts1, us1 := ts, us;
      if els.Some? {
        StmtBehind(els.value, ts, bad, us);
        Behind([Symbol(TElse)], StmtFormTokens(els.value, ts), bad, StmtFormTokens(els.value, us));
        ts1, us1 := [Symbol(TElse)] + StmtFormTokens(els.value, ts), [Symbol(TElse)] + StmtFormTokens(els.value, us);
      }
      StmtBehind(thn, ts1, bad, us1);
      CondBehind(cond, StmtFormTokens(thn, ts1), bad, StmtFormTokens(thn, us1));
    case LoopForm(count, named, body) =>
      StmtBehind(body, ts, bad, us);
      var ts1, us1 := StmtFormTokens(body, ts), StmtFormTokens(body, us);
      CountBehind(count, named, ts1, bad, us1);
      Behind([Symbol(TLoop)], CountTokens(count, named, ts1), bad, CountTokens(count, named, us1));
  }

  function InitTokens(init: Option<Form>, k: seq<Token>): seq<Token> {
    if init.None? then k else [Symbol(TAssign)] + FormTokens(init.value, k)
  }

  lemma InitBehind(word: Token, name: string, init: Option<Form>, ts: seq<Token>, bad: seq<Token>, us: seq<Token>)
    requires Opens(ts, bad, us)
    ensures Opens([word] + ([Name(name)] + InitTokens(init, ts)), bad, [word] + ([Name(name)] + InitTokens(init, us)))
  {
    hide Opens, Symbol, FormTokens;
    if init.Some? {
      FormBehind(init.value, ts, bad, us);
      Behind([Symbol(TAssign)], FormTokens(init.value, ts), bad, FormTokens(init.value, us));
    }
    Behind([Name(name)], InitTokens(init, ts), bad, InitTokens(init, us));
    Behind([word], [Name(name)] + InitTokens(init, ts), bad, [Name(name)] + InitTokens(init, us));
  }

  function HeadTokens(fname: string, params: seq<string>, comma: bool, k: seq<Token>): seq<Token> {
    [Symbol(TFunction)] + ([Name(fname)] + ([Symbol(TParenOpen)] + ParamTokens(params, comma, [Symbol(TParenClose)] + k)))
  }

  lemma HeadBehind(fname: string, params: seq<string>, comma: bool, ts: seq<Token>, bad: seq<Token>, us: seq<Token>)
    requires Opens(ts, bad, us)
    ensures Opens(HeadTokens(fname, params, comma, ts), bad, HeadTokens(fname, params, comma, us))
  {
    hide Opens, Symbol, ParamTokens;
    Behind([Symbol(TParenClose)], ts, bad, us);
    ParamsBehind(params, comma, [Symbol(TParenClose)] + ts, bad, [Symbol(TParenClose)] + us);
    var ts1 := ParamTokens(params, comma, [Symbol(TParenClose)] + ts);
    var us1 := ParamTokens(params, comma, [Symbol(TParenClose)] + us);
    Behind([Symbol(TParenOpen)], ts1, bad, us1);
    Behind([Name(fname)], [Symbol(TParenOpen)] + ts1, bad, [Symbol(TParenOpen)] + us1);
    Behind([Symbol(TFunction)], [Name(fname)] + ([Symbol(TParenOpen)] + ts1), bad, [Name(fname)] + ([Symbol(TParenOpen)] + us1));
  }

  function CondTokens(cond: Form, k: seq<Token>): seq<Token> {
    [Symbol(TIf)] + ([Symbol(TParenOpen)] + FormTokens(cond, [Symbol(TParenClose)] + k))
  }

  lemma CondBehind(cond: Form, ts: seq<Token>, bad: seq<Token>, us: seq<Token>)
    requires Opens(ts, bad, us)
    ensures Opens(CondTokens(cond, ts), bad, CondTokens(cond, us))
  {
    hide Opens, Symbol, FormTokens;
    Behind([Symbol(TParenClose)], ts, bad, us);
    FormBehind(cond, [Symbol(TParenClose)] + ts, bad, [Symbol(TParenClose)] + us);
    var ts1, us1 := FormTokens(cond, [Symbol(TParenClose)] + ts), FormTokens(cond, [Symbol(TParenClose)] + us);
    Behind([Symbol(TParenOpen)], ts1, bad, us1);
    Behind([Symbol(TIf)], [Symbol(TParenOpen)] + ts1, bad, [Symbol(TParenOpen)] + us1);
  }

  function BraceTokens(ss: seq<StmtForm>, k: seq<Token>): seq<Token> {
    [Symbol(TBraceOpen)] + StmtFormsTokens(ss, [Symbol(TBraceClose)] + k)
  }

  lemma {:induction false} BracesBehind(ss: seq<StmtForm>, extra: nat, ts: seq<Token>, bad: seq<Token>, us: seq<Token>)
    requires Opens(ts, bad, us)
    ensures Opens(BraceTokens(ss, Semicolons(extra, ts)), bad, BraceTokens(ss, Semicolons(extra, us)))
    decreases ss, 3
  {
    hide Opens, Symbol, StmtFormsTokens, Semicolons;
    SemicolonsBehind(extra, ts, bad, us);
    Behind([Symbol(TBraceClose)], Semicolons(extra, ts), bad, Semicolons(extra, us));
    var ts1, us1 := [Symbol(TBraceClose)] + Semicolons(extra, ts), [Symbol(TBraceClose)] + Semicolons(extra, us);
    StmtsBehind(ss, ts1, bad, us1);
    Behind([Symbol(TBraceOpen)], StmtFormsTokens(ss, ts1), bad, StmtFormsTokens(ss, us1));
  }

  lemma {:induction false} StmtsBehind(ss: seq<StmtForm>, ts: seq<Token>, bad: seq<Token>, us: seq<Token>)
    requires Opens(ts, bad, us)
    ensures Opens(StmtFormsTokens(ss, ts), bad, StmtFormsTokens(ss, us))
    decreases ss, 2
  {
    hide Opens, StmtFormTokens;
    if ss != [] {
      StmtsBehind(ss[1..], ts, bad, us);
      StmtBehind(ss[0], StmtFormsTokens(ss[1..], ts), bad, StmtFormsTokens(ss[1..], us));
    }
  }

  // ----- expressions -----

  lemma GroupedIs(inner: Form, k: seq<Token>)
    ensures FormTokens(Grouped(inner), k) == [Symbol(TParenOpen)] + FormTokens(inner, [Symbol(TParenClose)] + k)
    ensures Proper(Grouped(inner)) <==> Proper(inner)
  {
  }

  lemma ApplyIs(callee: string, args: seq<Arg>, k: seq<Token>)
    ensures FormTokens(Apply(callee, args), k)
         == [Name(callee)] + ([Symbol(TParenOpen)] + ArgsTokens(args, [Symbol(TParenClose)] + k))
    ensures Proper(Apply(callee, args)) <==> RoundTrip.ProperArgs(args)
  {
  }

  lemma InfixIs(op: BinOp, left: Form, right: Form, k: seq<Token>)
    ensures FormTokens(Infix(op, left, right), k) == FormTokens(left, [OperatorToken(op)] + FormTokens(right, k))
    ensures Proper(left) && Proper(right) && FormLevel(left) >= OperatorLevel(op) && FormLevel(right) > OperatorLevel(op) ==>
      Proper(Infix(op, left, right))
  {
  }

  lemma ItemsIs(elems: seq<Form>, comma: bool, k: seq<Token>)
    ensures FormTokens(Items(elems, comma), k)
         == [Symbol(TArray)] + ([Symbol(TSquareOpen)] + ElemsTokens(elems, comma, [Symbol(TSquareClose)] + k))
    ensures ProperAll(elems) && (comma ==> elems != []) ==> Proper(Items(elems, comma))
  {
  }

  // The error names the first token of bad. (That tokens never run out is the progress of the
  // grammar.)
  predicate Names(e: ParseError, bad: seq<Token>) {
    match e
    case Unexpected(found) => At(bad, found)
    case UnexpectedEof => At(bad, TEof)
    case ConstWithoutValue => At(bad, TSemicolon)
    case BadInteger => At(bad, TInt) && !Decimal.AllDigits(bad[0].text)
    case NoMoreTokens => false
  }

  predicate Complains<T>(r: Parse<T>) { r.Err? && r.error != NoMoreTokens }

  lemma Refused(ts: seq<Token>, typ: TokenType)
    requires Complains(Expect(ts, typ))
    ensures Names(Expect(ts, typ).error, ts)
  {
  }

  // Something to go on with where any expression or statement would do.
  const FILLER := Word(Token(TString, ""))
  const FILLERS := ExprForm(FILLER, 0)

  // r complains about the first token of bad, and the form f, followed by k, begins as ts does.
  ghost predicate Begun<T>(r: Parse<T>, ts: seq<Token>, bad: seq<Token>, f: Form, k: seq<Token>) {
    Complains(r) && Names(r.error, bad) && Proper(f) && Opens(ts, bad, FormTokens(f, k))
  }

  // The form starts like ts, unless the complaint is about the first token of ts.
  predicate StartsLike(typ: TokenType, ts: seq<Token>, bad: seq<Token>) {
    if bad == ts then typ == TString else |ts| > 1 && ts[0].typ == typ
  }

  lemma StartKnown(f: Form, ts: seq<Token>, bad: seq<Token>, k: seq<Token>)
    requires Proper(f) && Opens(ts, bad, FormTokens(f, k)) && bad != ts && bad != []
    ensures StartsLike(FirstOf(f), ts, bad)
  {
    RoundTrip.FirstToken(f, k);
    hide Proper, FormTokens;
    assert ts[..|ts| - |bad|][0] == ts[0];
  }

  lemma {:induction false} ExprOpens(ts: seq<Token>, k: seq<Token>) returns (f: Form, bad: seq<Token>)
    requires Regulars(ts) && Complains(ParseExpr(ts))
    ensures Begun(ParseExpr(ts), ts, bad, f, k) && StartsLike(FirstOf(f), ts, bad)
    decreases |ts|, 8
  {
    hide ParseArray, Progress, Regulars, Symbol, Opens, Names, Proper, FormTokens;
    if !AtEof(ts) && |ts| > 1 && ts[1].typ == TAssign {
      if ts[0].typ == TIdent {
        NameAt(ts);
        SymbolAt(ts[1..], TAssign);
        var ts2 := ts[1..][1..];
        var stored, bad2 := ExprOpens(ts2, k);
        f, bad := Store(ts[0].text, stored), bad2;
        StoreOpens(ts[0].text, stored, ts2, bad, k);
      } else {
        Refused(ts, TIdent);
        bad := ts;
      }
    } else {
      f, bad := ArrayOpens(ts, k);
    }
    if bad == ts {
      f := FILLER;
      FillerProper();
      Nothing(ts, FormTokens(f, k));
    } else {
      NamedToken(ParseExpr(ts).error, bad);
      StartKnown(f, ts, bad, k);
    }
  }

  lemma NamedToken(e: ParseError, bad: seq<Token>)
    requires Names(e, bad)
    ensures bad != []
  {
  }

  lemma FillerProper()
    ensures Proper(FILLER) && FirstOf(FILLER) == TString && FormLevel(FILLER) == 4
    ensures ProperStmt(FILLERS) && FirstOfStmtForm(FILLERS) == TString && !OpenForm(FILLERS)
  {
  }

  lemma StoreOpens(name: string, stored: Form, ts: seq<Token>, bad: seq<Token>, k: seq<Token>)
    requires Proper(stored) && Opens(ts, bad, FormTokens(stored, k))
    ensures Proper(Store(name, stored))
    ensures Opens([Name(name)] + ([Symbol(TAssign)] + ts), bad, FormTokens(Store(name, stored), k))
  {
    hide Opens, Symbol;
    Behind([Symbol(TAssign)], ts, bad, FormTokens(stored, k));
    Behind([Name(name)], [Symbol(TAssign)] + ts, bad, [Symbol(TAssign)] + FormTokens(stored, k));
  }

  lemma {:induction false} ArrayOpens(ts: seq<Token>, k: seq<Token>) returns (f: Form, bad: seq<Token>)
    requires Regulars(ts) && Complains(ParseArray(ts))
    ensures Begun(ParseArray(ts), ts, bad, f, k)
    decreases |ts|, 7
  {
    hide ParseBinary, ParseElems, Progress, LoopProgress, Regulars, Symbol, Opens, Names, ElemsTokens, Proper;
    hide FormTokens;
    if ts[0].typ != TArray {
      f, bad := BinaryOpens(1, ts, k);
    } else {
      SymbolAt(ts, TArray);
      var ts1, k1 := ts[1..], [Symbol(TSquareClose)] + k;
      if !At(ts1, TSquareOpen) {
        Refused(ts1, TSquareOpen);
        f, bad := Items([], false), ts1;
        ItemsIs([], false, k);
        Nothing(ts1, [Symbol(TSquareOpen)] + ElemsTokens([], false, k1));
        Behind([Symbol(TArray)], ts1, bad, [Symbol(TSquareOpen)] + ElemsTokens([], false, k1));
      } else {
        SymbolAt(ts1, TSquareOpen);
        var elems, comma, bad' := ClosedElemsOpen(ts1[1..], k1);
        f, bad := Items(elems, comma), bad';
        ItemsIs(elems, comma, k);
        Behind([Symbol(TSquareOpen)], ts1[1..], bad, ElemsTokens(elems, comma, k1));
        Behind([Symbol(TArray)], ts1, bad, [Symbol(TSquareOpen)] + ElemsTokens(elems, comma, k1));
      }
    }
  }

  // What a bracket is complained about for, behind the elements, or the elements themselves.
  lemma {:induction false} ClosedElemsOpen(ts: seq<Token>, k: seq<Token>)
    returns (elems: seq<Form>, comma: bool, bad: seq<Token>)
    requires Regulars(ts)
    requires var r := ParseElems(ts);
      if r.Ok? then Complains(Expect(r.rest, TSquareClose)) else Complains(r)
    ensures ProperAll(elems) && (comma ==> elems != []) && Opens(ts, bad, ElemsTokens(elems, comma, k))
    ensures var r := ParseElems(ts);
      Names(if r.Ok? then Expect(r.rest, TSquareClose).error else r.error, bad)
    decreases |ts|, 10
  {
    hide ParseElems, Regulars, Opens, Names, ElemsTokens, LoopProgress, Progress, Proper;
    if ParseElems(ts).Ok? {
      elems, comma := ElemsAreForms(ts);
      bad := ParseElems(ts).rest;
      Refused(bad, TSquareClose);
      Nothing(bad, k);
      ElemsBehind(elems, comma, bad, bad, k);
    } else {
      elems, comma, bad := ElemsOpen(ts, k);
    }
  }

  lemma {:induction false} ElemsOpen(ts: seq<Token>, k: seq<Token>) returns (elems: seq<Form>, comma: bool, bad: seq<Token>)
    requires Regulars(ts) && Complains(ParseElems(ts))
    ensures ProperAll(elems) && elems != [] && Names(ParseElems(ts).error, bad)
    ensures Opens(ts, bad, ElemsTokens(elems, comma, k))
    decreases |ts|, 9
  {
    hide ParseExpr, Regulars, Symbol, Proper, Meaning, FormTokens, Opens, Names;
    comma := false;
    if ParseExpr(ts).Err? {
      var f, bad' := ExprOpens(ts, k);
      elems, bad := [f], bad';
    } else {
      var f := ExprIsForm(ts);
      var ts1 := ParseExpr(ts).rest;
      if ts1[0].typ != TComma {
        Refused(ts1, TComma);
        elems, bad := [f], ts1;
        Nothing(ts1, k);
        FormBehind(f, ts1, ts1, k);
      } else {
        SymbolAt(ts1, TComma);
        var es, more, bad' := ElemsOpen(ts1[1..], k);
        elems, comma, bad := [f] + es, more, bad';
        assert elems[1..] == es;
        Behind([Symbol(TComma)], ts1[1..], bad, ElemsTokens(es, more, k));
        FormBehind(f, ts1, bad, [Symbol(TComma)] + ElemsTokens(es, more, k));
      }
    }
  }

  lemma {:induction false} BinaryOpens(level: nat, ts: seq<Token>, k: seq<Token>) returns (f: Form, bad: seq<Token>)
    requires Regulars(ts) && 1 <= level <= 3 && Complains(ParseBinary(level, ts))
    ensures Begun(ParseBinary(level, ts), ts, bad, f, k) && FormLevel(f) >= level
    decreases |ts|, 6 - level
  {
    hide ParseOperand, ParseChain, Regulars, Begun;
    var r := ParseOperand(level, ts);
    if r.Err? {
      f, bad := OperandOpens(level, ts, k);
      SameComplaint(r, ParseBinary(level, ts), ts, bad, f, k);
    } else {
      var left := OperandIsForm(level, ts);
      f, bad := ChainOpens(level, left, r.value, r.rest, ts, k);
      SameComplaint(ParseChain(level, r.value, r.rest), ParseBinary(level, ts), ts, bad, f, k);
    }
  }

  lemma SameComplaint<T, U>(r: Parse<T>, r': Parse<U>, ts: seq<Token>, bad: seq<Token>, f: Form, k: seq<Token>)
    requires Begun(r, ts, bad, f, k) && r'.Err? && r'.error == r.error
    ensures Begun(r', ts, bad, f, k)
  {
  }

  lemma {:induction false} OperandOpens(level: nat, ts: seq<Token>, k: seq<Token>) returns (f: Form, bad: seq<Token>)
    requires Regulars(ts) && 1 <= level <= 3 && Complains(ParseOperand(level, ts))
    ensures Begun(ParseOperand(level, ts), ts, bad, f, k) && FormLevel(f) >= level + 1
    decreases |ts|, 6 - level, 0
  {
    hide Regulars, Begun;
    if level == 3 {
      f, bad := CallOpens(ts, k);
    } else {
      f, bad := BinaryOpens(level + 1, ts, k);
    }
  }

  lemma {:induction false} ChainOpens(level: nat, left: Form, e: Expr, ts: seq<Token>, start: seq<Token>, k: seq<Token>)
    returns (f: Form, bad: seq<Token>)
    requires 1 <= level <= 3 && |ts| < |start| && Complains(ParseChain(level, e, ts))
    requires ReadAs(left, start, e, ts) && FormLevel(left) >= level
    ensures Begun(ParseChain(level, e, ts), start, bad, f, k) && FormLevel(f) >= level
    decreases |ts|, 0
  {
    hide ParseOperand, IsOperatorAt, OperatorOf, Regulars, Opens, Names, Proper, FormTokens, Meaning;
    OperatorAt(level, ts);
    var op := OperatorOf(ts[0]);
    var r := ParseOperand(level, ts[1..]);
    if r.Err? {
      var right, bad' := OperandOpens(level, ts[1..], k);
      f, bad := Infix(op, left, right), bad';
      InfixIs(op, left, right, k);
      Behind([OperatorToken(op)], ts[1..], bad, FormTokens(right, k));
      FormBehind(left, ts, bad, [OperatorToken(op)] + FormTokens(right, k));
    } else {
      hide ReadAs;
      var right := OperandIsForm(level, ts[1..]);
      InfixRead(op, left, right, start, ts, ts[1..], e, r.value, r.rest);
      f, bad := ChainOpens(level, Infix(op, left, right), Binary(op, e, r.value), r.rest, start, k);
    }
  }

  lemma InfixRead(op: BinOp, left: Form, right: Form, start: seq<Token>, ts: seq<Token>, us: seq<Token>, e: Expr, e': Expr,
                  rest: seq<Token>)
    requires ReadAs(left, start, e, ts) && ReadAs(right, us, e', rest) && ts == [OperatorToken(op)] + us
    requires FormLevel(left) >= OperatorLevel(op) && FormLevel(right) > OperatorLevel(op)
    ensures ReadAs(Infix(op, left, right), start, Binary(op, e, e'), rest)
  {
    hide Regulars;
  }

  lemma {:induction false} CallOpens(ts: seq<Token>, k: seq<Token>) returns (f: Form, bad: seq<Token>)
    requires Regulars(ts) && Complains(ParseCall(ts))
    ensures Begun(ParseCall(ts), ts, bad, f, k) && FormLevel(f) == 4
    decreases |ts|, 2
  {
    hide ParseArgs, ParsePrimary, Regulars, Symbol, ArgsTokens, Opens, Names, Proper, FormTokens, RoundTrip.ProperArgs;
    if |ts| > 2 && ts[0].typ == TIdent && ts[1].typ == TParenOpen {
      NameAt(ts);
      SymbolAt(ts[1..], TParenOpen);
      var k1 := [Symbol(TParenClose)] + k;
      assert ts[1..][1..] == ts[2..];
      var args, bad' := ClosedArgsOpen(ts[2..], k1);
      f, bad := Apply(ts[0].text, args), bad';
      ApplyIs(ts[0].text, args, k);
      Behind([Symbol(TParenOpen)], ts[2..], bad, ArgsTokens(args, k1));
      Behind([Name(ts[0].text)], ts[1..], bad, [Symbol(TParenOpen)] + ArgsTokens(args, k1));
    } else {
      f, bad := PrimaryOpens(ts, k);
    }
  }

  lemma {:induction false} ClosedArgsOpen(ts: seq<Token>, k: seq<Token>) returns (args: seq<Arg>, bad: seq<Token>)
    requires Regulars(ts)
    requires var r := ParseArgs(ts);
      if r.Ok? then Complains(Expect(r.rest, TParenClose)) else Complains(r)
    ensures RoundTrip.ProperArgs(args) && Opens(ts, bad, ArgsTokens(args, k))
    ensures var r := ParseArgs(ts);
      Names(if r.Ok? then Expect(r.rest, TParenClose).error else r.error, bad)
    decreases |ts|, 10
  {
    hide ParseArgs, Regulars, Opens, Names, ArgsTokens, LoopProgress, Progress, Proper;
    if ParseArgs(ts).Ok? {
      args := ArgsAreForms(ts);
      bad := ParseArgs(ts).rest;
      Refused(bad, TParenClose);
      Nothing(bad, k);
      ArgsBehind(args, bad, bad, k);
    } else {
      args, bad := ArgsOpen(ts, k);
    }
  }

  lemma {:induction false} ArgsOpen(ts: seq<Token>, k: seq<Token>) returns (args: seq<Arg>, bad: seq<Token>)
    requires Regulars(ts) && Complains(ParseArgs(ts))
    ensures RoundTrip.ProperArgs(args) && args != [] && Names(ParseArgs(ts).error, bad)
    ensures Opens(ts, bad, ArgsTokens(args, k)) && StartsLike(FirstOf(args[0].form), ts, bad)
    decreases |ts|, 9
  {
    hide ParseExpr, Regulars, Symbol, Proper, Meaning, FormTokens, Separate, Opens, Names;
    if ParseExpr(ts).Err? {
      var f, bad' := ExprOpens(ts, k);
      args, bad := [Arg(f, false)], bad';
      assert args[1..] == [];
    } else {
      var f := ExprIsForm(ts);
      var ts1 := ParseExpr(ts).rest;
      var comma := ts1[0].typ == TComma;
      if comma {
        SymbolAt(ts1, TComma);
      }
      var ts2 := if comma then ts1[1..] else ts1;
      var es, bad' := ArgsOpen(ts2, k);
      args, bad := [Arg(f, comma)] + es, bad';
      NextSeparate(f, comma, es[0].form, ts1, bad);
      ArgsJoined(Arg(f, comma), es);
      assert args[1..] == es;
      ArgBehind(Arg(f, comma), ts2, bad, ArgsTokens(es, k));
      NamedToken(ParseArgs(ts).error, bad);
      ReadStart(f, ts, ts1, bad, ts2, ArgsTokens(es, k));
    }
  }

  lemma NextSeparate(f: Form, comma: bool, next: Form, ts: seq<Token>, bad: seq<Token>)
    requires NotCalled(f, ts) && (!comma ==> StartsLike(FirstOf(next), ts, bad))
    ensures Separate(Arg(f, comma), next)
  {
  }

  // What was read starts like the tokens it was read from.
  lemma ReadStart(f: Form, ts: seq<Token>, rest: seq<Token>, bad: seq<Token>, later: seq<Token>, us: seq<Token>)
    requires Proper(f) && FormTokens(f, rest) == ts && |later| <= |rest| && Opens(later, bad, us) && bad != []
    ensures StartsLike(FirstOf(f), ts, bad)
  {
    RoundTrip.FirstToken(f, rest);
  }

  lemma {:induction false} PrimaryOpens(ts: seq<Token>, k: seq<Token>) returns (f: Form, bad: seq<Token>)
    requires Regulars(ts) && Complains(ParsePrimary(ts))
    ensures Begun(ParsePrimary(ts), ts, bad, f, k) && FormLevel(f) == 4
    decreases |ts|, 1
  {
    hide ParseExpr, Regulars, Symbol, Opens, Proper, FormTokens, FILLER;
    FillerProper();
    f, bad := FILLER, ts;
    Nothing(ts, FormTokens(f, k));
    if ts[0].typ == TParenOpen {
      SymbolAt(ts, TParenOpen);
      var k1 := [Symbol(TParenClose)] + k;
      var inner, bad' := ClosedOpens(ts[1..], k1);
      f, bad := Grouped(inner), bad';
      GroupedIs(inner, k);
      Behind([Symbol(TParenOpen)], ts[1..], bad, FormTokens(inner, k1));
    }
  }

  // An expression and the parenthesis behind it.
  lemma {:induction false} ClosedOpens(ts: seq<Token>, k: seq<Token>) returns (f: Form, bad: seq<Token>)
    requires Regulars(ts)
    requires var r := ParseExpr(ts);
      if r.Ok? then Complains(Expect(r.rest, TParenClose)) else Complains(r)
    ensures Proper(f) && Opens(ts, bad, FormTokens(f, k))
    ensures var r := ParseExpr(ts);
      Names(if r.Ok? then Expect(r.rest, TParenClose).error else r.error, bad)
    decreases |ts|, 9
  {
    hide ParseExpr, Regulars, Opens, Names, Proper, FormTokens, Meaning, Progress;
    if ParseExpr(ts).Ok? {
      f := ExprIsForm(ts);
      bad := ParseExpr(ts).rest;
      Refused(bad, TParenClose);
      Nothing(bad, k);
      FormBehind(f, bad, bad, k);
    } else {
      f, bad := ExprOpens(ts, k);
    }
  }

  // ----- statements -----

  // r complains about the first token of bad, and the statement s, followed by k, begins as ts does.
  ghost predicate StmtBegun<T>(r: Parse<T>, ts: seq<Token>, bad: seq<Token>, s: StmtForm, k: seq<Token>) {
    Complains(r) && Names(r.error, bad) && ProperStmt(s) && Opens(ts, bad, StmtFormTokens(s, k))
  }

  lemma DeclIs(name: string, isConst: bool, init: Form, k: seq<Token>)
    ensures StmtFormTokens(DeclForm(name, isConst, Some(init), 0), k)
         == [Symbol(if isConst then TConst else TVar)] + ([Name(name)] + InitTokens(Some(init), [Symbol(TSemicolon)] + k))
    ensures Proper(init) ==> ProperStmt(DeclForm(name, isConst, Some(init), 0))
  {
    hide FormTokens, Proper, Symbol;
  }

  lemma FnIs(name: string, params: seq<string>, comma: bool, body: seq<StmtForm>, k: seq<Token>)
    ensures StmtFormTokens(FnForm(name, params, comma, body, 0), k) == HeadTokens(name, params, comma, BraceTokens(body, k))
    ensures (comma ==> params != []) && ProperStmts(body) ==> ProperStmt(FnForm(name, params, comma, body, 0))
  {
    hide ParamTokens, StmtFormsTokens, Symbol;
  }

  lemma IfIs(cond: Form, thn: StmtForm, els: Option<StmtForm>, k: seq<Token>)
    ensures var k1 := if els.None? then k else [Symbol(TElse)] + StmtFormTokens(els.value, k);
      StmtFormTokens(IfForm(cond, thn, els), k) == CondTokens(cond, StmtFormTokens(thn, k1))
    ensures Proper(cond) && ProperStmt(thn) && (els.Some? ==> ProperStmt(els.value) && !OpenForm(thn)) ==>
      ProperStmt(IfForm(cond, thn, els))
  {
    hide FormTokens, Proper, Symbol, OpenForm;
  }

  lemma LoopIs(count: Option<Count>, named: Option<string>, body: StmtForm, k: seq<Token>)
    ensures StmtFormTokens(LoopForm(count, named, body), k)
         == [Symbol(TLoop)] + CountTokens(count, named, StmtFormTokens(body, k))
    ensures ProperStmt(LoopForm(count, named, body)) <==>
      && (count.Some? ==> Proper(count.value.form)) && ProperStmt(body)
      && (named.None? ==> FirstOfStmtForm(body) != TIdent && (count.None? ==> FirstOfStmtForm(body) != TParenOpen))
  {
    hide CountTokens, Proper, Symbol, FirstOfStmtForm;
  }

  lemma StmtStartKnown(s: StmtForm, ts: seq<Token>, bad: seq<Token>, k: seq<Token>)
    requires ProperStmt(s) && Opens(ts, bad, StmtFormTokens(s, k)) && bad != ts && bad != []
    ensures StartsLike(FirstOfStmtForm(s), ts, bad)
  {
    RoundTrip.FirstOfStmtTokens(s, k);
    hide ProperStmt, StmtFormTokens;
    assert ts[..|ts| - |bad|][0] == ts[0];
  }

  lemma {:induction false} SkippingIsSilent(ts: seq<Token>)
    ensures !Complains(SkipSemicolons(ts))
  {
    if At(ts, TSemicolon) {
      SkippingIsSilent(ts[1..]);
    }
  }

  lemma {:induction false} StmtOpens(ts: seq<Token>, k: seq<Token>) returns (s: StmtForm, bad: seq<Token>)
    requires Regulars(ts) && Complains(ParseStmt(ts))
    ensures StmtBegun(ParseStmt(ts), ts, bad, s, k) && StartsLike(FirstOfStmtForm(s), ts, bad)
    decreases |ts|, 12
  {
    hide ParseBareStmt, Regulars, SkipSemicolons, ProperStmt, StmtFormTokens, Opens, Names, Progress, LoopProgress;
    if ParseBareStmt(ts).Ok? {
      SkippingIsSilent(ParseBareStmt(ts).rest);
    }
    s, bad := BareStmtOpens(ts, k);
    if bad == ts {
      s := FILLERS;
      FillerProper();
      Nothing(ts, StmtFormTokens(s, k));
    } else {
      NamedToken(ParseStmt(ts).error, bad);
      StmtStartKnown(s, ts, bad, k);
    }
  }

  lemma {:induction false} BareStmtOpens(ts: seq<Token>, k: seq<Token>) returns (s: StmtForm, bad: seq<Token>)
    requires Regulars(ts) && Complains(ParseBareStmt(ts))
    ensures StmtBegun(ParseBareStmt(ts), ts, bad, s, k)
    decreases |ts|, 11
  {
    hide ParseVarDecl, ParseFnDecl, ParseBlock, ParseIf, ParseLoop, ParseExpr, Progress, LoopProgress, Regulars;
    hide Symbol, Opens, Names, ProperStmt, StmtFormTokens;
    match ts[0].typ
    case TVar => s, bad := DeclOpens(ts, k);
    case TConst => s, bad := DeclOpens(ts, k);
    case TFunction => s, bad := FnOpens(ts, k);
    case TBraceOpen =>
      var ss, bad' := BracesOpen(ts, k);
      bad := bad';
      s := BlockOpens(ts, ss, bad, k);
    case TIf => s, bad := IfOpens(ts, k);
    case TLoop => s, bad := LoopOpens(ts, k);
    case _ => s, bad := ExprStmtOpens(ts, k);
  }

  lemma {:induction false} ExprStmtOpens(ts: seq<Token>, k: seq<Token>) returns (s: StmtForm, bad: seq<Token>)
    requires Regulars(ts)
    requires var r := ParseExpr(ts);
      if r.Ok? then Complains(Expect(r.rest, TSemicolon)) else Complains(r)
    ensures var r := ParseExpr(ts);
      StmtBegun(if r.Ok? then Err(Expect(r.rest, TSemicolon).error) else r, ts, bad, s, k)
    decreases |ts|, 10
  {
    hide ParseExpr, Regulars, Symbol, Opens, Names, Proper, FormTokens;
    var k1 := [Symbol(TSemicolon)] + Semicolons(0, k);
    var e;
    if ParseExpr(ts).Ok? {
      e := ExprIsForm(ts);
      bad := ParseExpr(ts).rest;
      Refused(bad, TSemicolon);
      Nothing(bad, k1);
      FormBehind(e, bad, bad, k1);
    } else {
      e, bad := ExprOpens(ts, k1);
    }
    s := ExprForm(e, 0);
  }

  lemma BlockOpens(ts: seq<Token>, ss: seq<StmtForm>, bad: seq<Token>, k: seq<Token>) returns (s: StmtForm)
    requires Complains(ParseBlock(ts)) && Names(ParseBlock(ts).error, bad) && ProperStmts(ss)
    requires Opens(ts, bad, BraceTokens(ss, k))
    ensures StmtBegun(ParseBlock(ts), ts, bad, s, k)
  {
    hide ParseBlock, Names, Opens, Symbol;
    s := BlockForm(ss, 0);
  }

  // The statements between braces, or the braces themselves.
  lemma {:induction false} BracesOpen(ts: seq<Token>, k: seq<Token>) returns (ss: seq<StmtForm>, bad: seq<Token>)
    requires Regulars(ts) && Complains(ParseBlock(ts))
    ensures ProperStmts(ss) && Names(ParseBlock(ts).error, bad) && Opens(ts, bad, BraceTokens(ss, k))
    decreases |ts|, 9
  {
    hide ParseStmts, Regulars, Symbol, StmtFormsTokens, LoopProgress, Names, Opens, ProperStmt;
    var k1 := [Symbol(TBraceClose)] + k;
    if !At(ts, TBraceOpen) {
      Refused(ts, TBraceOpen);
      ss, bad := [], ts;
      Nothing(ts, BraceTokens(ss, k));
    } else {
      SymbolAt(ts, TBraceOpen);
      if ParseStmts(ts[1..], true).Ok? {
        ss := StmtsAreForms(ts[1..], true);
        bad := ParseStmts(ts[1..], true).rest;
        Refused(bad, TBraceClose);
        Nothing(bad, k1);
        StmtsBehind(ss, bad, bad, k1);
      } else {
        ss, bad := StmtsOpen(ts[1..], true, k1);
      }
      Behind([Symbol(TBraceOpen)], ts[1..], bad, StmtFormsTokens(ss, k1));
    }
  }

  lemma {:induction false} DeclOpens(ts: seq<Token>, k: seq<Token>) returns (s: StmtForm, bad: seq<Token>)
    requires Regulars(ts) && (At(ts, TVar) || At(ts, TConst))
    requires var r := ParseVarDecl(ts);
      if r.Ok? then Complains(Expect(r.rest, TSemicolon)) else Complains(r)
    ensures var r := ParseVarDecl(ts);
      StmtBegun(if r.Ok? then Err(Expect(r.rest, TSemicolon).error) else r, ts, bad, s, k)
    decreases |ts|, 10
  {
    hide ParseVarDecl, InitError, InitTokens, Regulars, Symbol, Proper, FormTokens, ProperStmt, StmtFormTokens;
    hide Opens, Names, FILLER;
    var isConst := ts[0].typ == TConst;
    SymbolAt(ts, ts[0].typ);
    FillerProper();
    DeclError(ts);
    var k1 := [Symbol(TSemicolon)] + k;
    var name, init, ts1 := "", FILLER, ts[1..];
    if !At(ts1, TIdent) {
      Refused(ts1, TIdent);
      bad := ts1;
      Nothing(ts1, [Name(name)] + InitTokens(Some(init), k1));
    } else {
      NameAt(ts1);
      name := ts1[0].text;
      init, bad := InitOpens(ts1[1..], isConst, k1);
      Behind([ts1[0]], ts1[1..], bad, InitTokens(Some(init), k1));
    }
    s := DeclForm(name, isConst, Some(init), 0);
    DeclIs(name, isConst, init, k);
    Behind([Symbol(ts[0].typ)], ts1, bad, [Name(name)] + InitTokens(Some(init), k1));
  }

  // Which error a declaration ends in, behind its name.
  function InitError(ts: seq<Token>, isConst: bool): Parse<()> {
    if ts == [] then Err(NoMoreTokens)
    else if ts[0].typ == TSemicolon then (if isConst then Err(ConstWithoutValue) else Ok((), ts[1..]))
    else if ts[0].typ != TAssign then Err(Expect(ts, TAssign).error)
    else
      var r := ParseExpr(ts[1..]);
      if r.Err? then Err(r.error)
      else if At(r.rest, TSemicolon) then Ok((), r.rest[1..])
      else Err(Expect(r.rest, TSemicolon).error)
  }

  lemma DeclError(ts: seq<Token>)
    requires At(ts, TVar) || At(ts, TConst)
    ensures var r := ParseVarDecl(ts);
      && (At(ts[1..], TIdent) && (r.Err? || !At(r.rest, TSemicolon)) ==>
            InitError(ts[1..][1..], ts[0].typ == TConst)
            == Err(if r.Err? then r.error else Expect(r.rest, TSemicolon).error))
      && (!At(ts[1..], TIdent) ==> r == Err(Expect(ts[1..], TIdent).error))
  {
    hide ParseExpr, Progress;
  }

  lemma {:induction false} InitOpens(ts: seq<Token>, isConst: bool, k: seq<Token>) returns (init: Form, bad: seq<Token>)
    requires Regulars(ts) && Complains(InitError(ts, isConst))
    ensures Proper(init) && Names(InitError(ts, isConst).error, bad)
    ensures Opens(ts, bad, InitTokens(Some(init), k))
    decreases |ts|, 9
  {
    hide ParseExpr, Regulars, Symbol, Proper, FormTokens, Meaning, Opens, Progress;
    FillerProper();
    init, bad := FILLER, ts;
    if At(ts, TAssign) {
      hide Names;
      SymbolAt(ts, TAssign);
      if ParseExpr(ts[1..]).Ok? {
        init := ExprIsForm(ts[1..]);
        bad := ParseExpr(ts[1..]).rest;
        Refused(bad, TSemicolon);
        Nothing(bad, k);
        FormBehind(init, bad, bad, k);
      } else {
        init, bad := ExprOpens(ts[1..], k);
      }
      Behind([Symbol(TAssign)], ts[1..], bad, FormTokens(init, k));
    } else {
      Nothing(ts, [Symbol(TAssign)] + FormTokens(init, k));
    }
  }

  lemma {:induction false} ParamsOpen(ts: seq<Token>, k: seq<Token>) returns (params: seq<string>, comma: bool, bad: seq<Token>)
    requires Regulars(ts) && Complains(ParseParams(ts))
    ensures params != [] && Names(ParseParams(ts).error, bad) && Opens(ts, bad, ParamTokens(params, comma, k))
    decreases |ts|
  {
    hide Regulars, Symbol, Opens, Names;
    params, comma, bad := [""], false, ts;
    Nothing(ts, ParamTokens(params, comma, k));
    if At(ts, TIdent) {
      NameAt(ts);
      var ts1, name := ts[1..], ts[0].text;
      if !At(ts1, TComma) {
        Refused(ts1, TComma);
        params, bad := [name], ts1;
        Nothing(ts1, k);
        Behind([Name(name)], ts1, ts1, k);
      } else {
        SymbolAt(ts1, TComma);
        var names, more, bad' := ParamsOpen(ts1[1..], k);
        params, comma, bad := [name] + names, more, bad';
        assert params[1..] == names;
        Behind([Symbol(TComma)], ts1[1..], bad, ParamTokens(names, more, k));
        Behind([Name(name)], ts1, bad, [Symbol(TComma)] + ParamTokens(names, more, k));
      }
    } else {
      Refused(ts, TIdent);
    }
  }

  lemma {:induction false} FnHeadOpens(ts: seq<Token>, k: seq<Token>)
    returns (name: string, params: seq<string>, comma: bool, bad: seq<Token>)
    requires Regulars(ts) && At(ts, TFunction) && Complains(ParseFnHead(ts))
    ensures (comma ==> params != []) && Names(ParseFnHead(ts).error, bad)
    ensures Opens(ts, bad, HeadTokens(name, params, comma, k))
  {
    hide Regulars, Symbol, ParseParams, ParamTokens, Opens, Names, LoopProgress;
    SymbolAt(ts, TFunction);
    var ts1, ts2 := ts[1..], [];
    name, params, comma := "", [], false;
    var k1 := [Symbol(TParenClose)] + k;
    if !At(ts1, TIdent) {
      Refused(ts1, TIdent);
      bad := ts1;
      Nothing(ts1, [Name(name)] + ([Symbol(TParenOpen)] + ParamTokens(params, comma, k1)));
    } else {
      NameAt(ts1);
      name, ts2 := ts1[0].text, ts1[1..];
      if !At(ts2, TParenOpen) {
        Refused(ts2, TParenOpen);
        bad := ts2;
        Nothing(ts2, [Symbol(TParenOpen)] + ParamTokens(params, comma, k1));
      } else {
        SymbolAt(ts2, TParenOpen);
        params, comma, bad := ClosedParamsOpen(ts2[1..], k1);
        Behind([Symbol(TParenOpen)], ts2[1..], bad, ParamTokens(params, comma, k1));
      }
      Behind([Name(name)], ts2, bad, [Symbol(TParenOpen)] + ParamTokens(params, comma, k1));
    }
    Behind([Symbol(TFunction)], ts1, bad, [Name(name)] + ([Symbol(TParenOpen)] + ParamTokens(params, comma, k1)));
  }

  lemma ClosedParamsOpen(ts: seq<Token>, k: seq<Token>) returns (params: seq<string>, comma: bool, bad: seq<Token>)
    requires Regulars(ts)
    requires var r := ParseParams(ts);
      if r.Ok? then Complains(Expect(r.rest, TParenClose)) else Complains(r)
    ensures (comma ==> params != []) && Opens(ts, bad, ParamTokens(params, comma, k))
    ensures var r := ParseParams(ts);
      Names(if r.Ok? then Expect(r.rest, TParenClose).error else r.error, bad)
  {
    hide Regulars, ParseParams, ParamTokens, Opens, Names, LoopProgress;
    if ParseParams(ts).Ok? {
      comma := ParamsAreForms(ts);
      params, bad := ParseParams(ts).value, ParseParams(ts).rest;
      Refused(bad, TParenClose);
      Nothing(bad, k);
      ParamsBehind(params, comma, bad, bad, k);
    } else {
      params, comma, bad := ParamsOpen(ts, k);
    }
  }

  lemma {:induction false} FnOpens(ts: seq<Token>, k: seq<Token>) returns (s: StmtForm, bad: seq<Token>)
    requires Regulars(ts) && At(ts, TFunction) && Complains(ParseFnDecl(ts))
    ensures StmtBegun(ParseFnDecl(ts), ts, bad, s, k)
    decreases |ts|, 10
  {
    hide ParseFnHead, ParseStmts, Regulars, Symbol, Opens, Names, HeadTokens, BraceTokens, Progress, LoopProgress;
    hide ProperStmt, StmtFormTokens;
    var head := ParseFnHead(ts);
    if head.Err? {
      var name, params, comma, bad' := FnHeadOpens(ts, BraceTokens([], k));
      s, bad := FnForm(name, params, comma, [], 0), bad';
      FnIs(name, params, comma, [], k);
    } else {
      var comma := FnHeadRead(ts);
      var body, bad' := BracesOpen(head.rest, k);
      s, bad := FnForm(head.value.0, head.value.1, comma, body, 0), bad';
      FnIs(head.value.0, head.value.1, comma, body, k);
      HeadBehind(head.value.0, head.value.1, comma, head.rest, bad, BraceTokens(body, k));
    }
  }

  lemma FnHeadRead(ts: seq<Token>) returns (comma: bool)
    requires Regulars(ts) && ParseFnHead(ts).Ok?
    ensures var r := ParseFnHead(ts);
      && (comma ==> r.value.1 != []) && Regulars(r.rest) && |r.rest| < |ts|
      && ts == HeadTokens(r.value.0, r.value.1, comma, r.rest)
  {
    hide Regulars, ParamTokens, Symbol, ParseFnHead;
    comma := FnHeadIsForm(ts);
  }

  lemma {:induction false} CondOpens(ts: seq<Token>, k: seq<Token>) returns (cond: Form, bad: seq<Token>)
    requires Regulars(ts) && At(ts, TIf) && Complains(ParseCondition(ts))
    ensures Proper(cond) && Names(ParseCondition(ts).error, bad) && Opens(ts, bad, CondTokens(cond, k))
    decreases |ts|, 8
  {
    hide ParseExpr, Regulars, Symbol, Proper, FormTokens, Meaning, Opens, Names, Progress;
    SymbolAt(ts, TIf);
    FillerProper();
    var ts1, k1 := ts[1..], [Symbol(TParenClose)] + k;
    cond, bad := FILLER, ts1;
    if !At(ts1, TParenOpen) {
      Refused(ts1, TParenOpen);
      Nothing(ts1, [Symbol(TParenOpen)] + FormTokens(cond, k1));
    } else {
      SymbolAt(ts1, TParenOpen);
      cond, bad := ClosedOpens(ts1[1..], k1);
      Behind([Symbol(TParenOpen)], ts1[1..], bad, FormTokens(cond, k1));
    }
    Behind([Symbol(TIf)], ts1, bad, [Symbol(TParenOpen)] + FormTokens(cond, k1));
  }

  lemma {:induction false} IfOpens(ts: seq<Token>, k: seq<Token>) returns (s: StmtForm, bad: seq<Token>)
    requires Regulars(ts) && At(ts, TIf) && Complains(ParseIf(ts))
    ensures StmtBegun(ParseIf(ts), ts, bad, s, k)
    decreases |ts|, 10
  {
    hide ParseCondition, ParseStmt, Regulars, Symbol, Proper, FormTokens, Meaning, Opens, Names, FILLERS;
    hide ProperStmt, StmtFormTokens, StmtMeaning, OpenForm;
    FillerProper();
    if ParseCondition(ts).Err? {
      var cond, bad' := CondOpens(ts, StmtFormTokens(FILLERS, k));
      s, bad := IfForm(cond, FILLERS, None), bad';
      IfIs(cond, FILLERS, None, k);
    } else {
      var cond := ConditionIsForm(ts);
      var ts1 := ParseCondition(ts).rest;
      if ParseStmt(ts1).Err? {
        var thn, bad' := StmtOpens(ts1, k);
        s, bad := IfForm(cond, thn, None), bad';
        IfIs(cond, thn, None, k);
        CondBehind(cond, ts1, bad, StmtFormTokens(thn, k));
      } else {
        var thn := StmtIsForm(ts1);
        var ts2 := ParseStmt(ts1).rest;
        SymbolAt(ts2, TElse);
        var els, bad' := StmtOpens(ts2[1..], k);
        s, bad := IfForm(cond, thn, Some(els)), bad';
        IfIs(cond, thn, s.els, k);
        Behind([Symbol(TElse)], ts2[1..], bad, StmtFormTokens(els, k));
        StmtBehind(thn, ts2, bad, [Symbol(TElse)] + StmtFormTokens(els, k));
        CondBehind(cond, ts1, bad, StmtFormTokens(thn, [Symbol(TElse)] + StmtFormTokens(els, k)));
      }
    }
  }

  lemma {:induction false} CountOpens(ts: seq<Token>, k: seq<Token>) returns (count: Count, bad: seq<Token>)
    requires Regulars(ts) && Complains(ParseLoopCount(ts))
    ensures Proper(count.form) && Names(ParseLoopCount(ts).error, bad)
    ensures Opens(ts, bad, CountTokens(Some(count), None, k))
    decreases |ts|, 8
  {
    hide ParseExpr, Regulars, Symbol, Proper, FormTokens, Meaning, Opens, Names, Progress, LoopProgress, ParseAsName;
    SymbolAt(ts, TParenOpen);
    var k1 := [Symbol(TParenClose)] + k;
    var r := ParseExpr(ts[1..]);
    if r.Err? {
      var e, bad' := ExprOpens(ts[1..], k1);
      count, bad := Count(e, None), bad';
      Behind([Symbol(TParenOpen)], ts[1..], bad, FormTokens(e, k1));
    } else {
      var e := ExprIsForm(ts[1..]);
      var asName, bad' := AsNameOpens(r.rest, k1);
      count, bad := Count(e, asName), bad';
      FormBehind(e, r.rest, bad, AsTokens(asName, k1));
      Behind([Symbol(TParenOpen)], ts[1..], bad, FormTokens(e, AsTokens(asName, k1)));
    }
  }

  function AsTokens(asName: Option<string>, k: seq<Token>): seq<Token> {
    if asName.None? then k else [Symbol(TAs)] + ([Name(asName.value)] + k)
  }

  lemma AsNameOpens(ts: seq<Token>, k: seq<Token>) returns (asName: Option<string>, bad: seq<Token>)
    requires Regulars(ts)
    requires var r := ParseAsName(ts);
      if r.Ok? then Complains(Expect(r.rest, TParenClose)) else Complains(r)
    ensures var r := ParseAsName(ts);
      Names(if r.Ok? then Expect(r.rest, TParenClose).error else r.error, bad)
    ensures Opens(ts, bad, AsTokens(asName, k))
  {
    hide Regulars, Symbol, Opens, Names, Progress;
    if !At(ts, TAs) {
      Refused(ts, TAs);
      asName, bad := None, ts;
      Nothing(ts, k);
    } else {
      SymbolAt(ts, TAs);
      var name, bad' := NameOpens(ts[1..], k);
      asName, bad := Some(name), bad';
      Behind([Symbol(TAs)], ts[1..], bad, [Name(name)] + k);
    }
  }

  // A name and the parenthesis behind it.
  lemma NameOpens(ts: seq<Token>, k: seq<Token>) returns (name: string, bad: seq<Token>)
    requires Regulars(ts)
    requires var r := Expect(ts, TIdent);
      if r.Ok? then Complains(Expect(r.rest, TParenClose)) else Complains(r)
    ensures var r := Expect(ts, TIdent);
      Names(if r.Ok? then Expect(r.rest, TParenClose).error else r.error, bad)
    ensures Opens(ts, bad, [Name(name)] + k)
  {
    hide Regulars, Opens, Names;
    if !At(ts, TIdent) {
      Refused(ts, TIdent);
      name, bad := "", ts;
      Nothing(ts, [Name(name)] + k);
    } else {
      NameAt(ts);
      name, bad := ts[0].text, ts[1..];
      Refused(bad, TParenClose);
      Nothing(bad, k);
      Behind([Name(name)], bad, bad, k);
    }
  }

  lemma {:induction false} LoopOpens(ts: seq<Token>, k: seq<Token>) returns (s: StmtForm, bad: seq<Token>)
    requires Regulars(ts) && At(ts, TLoop) && Complains(ParseLoop(ts))
    ensures StmtBegun(ParseLoop(ts), ts, bad, s, k)
    decreases |ts|, 10
  {
    hide ParseLoopCount, ParseStmt, Regulars, Symbol, Proper, FormTokens, Meaning, Opens, Names, FILLERS, Progress;
    hide LoopProgress, ProperStmt, StmtFormTokens, CountTokens;
    SymbolAt(ts, TLoop);
    FillerProper();
    var ts1 := ts[1..];
    if ParseLoopCount(ts1).Err? {
      var count, bad' := CountOpens(ts1, StmtFormTokens(FILLERS, k));
      s, bad := LoopForm(Some(count), None, FILLERS), bad';
      LoopIs(Some(count), None, FILLERS, k);
      Behind([Symbol(TLoop)], ts1, bad, CountTokens(Some(count), None, StmtFormTokens(FILLERS, k)));
    } else {
      CountConsumes(ts1);
      var count := CountIsForm(ts1);
      var ts2 := ParseLoopCount(ts1).rest;
      var named := if ts2[0].typ == TIdent then Some(ts2[0].text) else None;
      if named.Some? {
        NameAt(ts2);
      }
      var ts3 := if named.Some? then ts2[1..] else ts2;
      var body, bad' := StmtOpens(ts3, k);
      s, bad := LoopForm(count, named, body), bad';
      LoopIs(count, named, body, k);
      NoCountNoParen(count, ts2);
      CountBehind(count, named, ts3, bad, StmtFormTokens(body, k));
      CountNamed(count, named, ts3);
      Behind([Symbol(TLoop)], ts1, bad, CountTokens(count, named, StmtFormTokens(body, k)));
    }
  }

  lemma NoCountNoParen(count: Option<Count>, ts: seq<Token>)
    ensures count.None? ==> CountTokens(count, None, ts) == ts
  {
  }

  lemma CountNamed(count: Option<Count>, named: Option<string>, k: seq<Token>)
    ensures CountTokens(count, named, k) == CountTokens(count, None, if named.None? then k else [Name(named.value)] + k)
  {
  }

  lemma {:induction false} StmtsOpen(ts: seq<Token>, inBraces: bool, k: seq<Token>)
    returns (ss: seq<StmtForm>, bad: seq<Token>)
    requires Regulars(ts) && Complains(ParseStmts(ts, inBraces))
    ensures ProperStmts(ss) && Names(ParseStmts(ts, inBraces).error, bad) && Opens(ts, bad, StmtFormsTokens(ss, k))
    decreases |ts|, 13
  {
    hide ParseStmt, Regulars, ProperStmt, StmtMeaning, StmtFormTokens, Opens, Names;
    if ParseStmt(ts).Err? {
      var s, bad' := StmtOpens(ts, k);
      ss, bad := [s], bad';
      assert ss[1..] == [];
    } else {
      var s := StmtIsForm(ts);
      var r := ParseStmt(ts);
      var rest, bad' := StmtsOpen(r.rest, inBraces, k);
      ss, bad := [s] + rest, bad';
      assert ss[1..] == rest;
      StmtBehind(s, r.rest, bad, StmtFormsTokens(rest, k));
    }
  }

  // ----- programs -----

  // Every error names a token such that the tokens in front of it begin some program.
  lemma ErrorsAreFirst(ts: seq<Token>)
    requires Regulars(ts) && Complains(ParseProgram(ts))
    ensures exists i, us :: 0 <= i < |ts| && Names(ParseProgram(ts).error, ts[i..]) && ts[..i] <= us && ParseProgram(us).Ok?
  {
    hide ParseStmts, Regulars, ProperStmt, StmtFormTokens, Names;
    var ss, bad := StmtsOpen(ts, false, [Symbol(TEof)]);
    NamedToken(ParseProgram(ts).error, bad);
    RoundTrip.FormsReadBack(ss, [Symbol(TEof)]);
    var i, us := |ts| - |bad|, StmtFormsTokens(ss, [Symbol(TEof)]);
    assert ts[i..] == bad && ts[..i] <= us;
  }

  // Behind any statements, an error is that of the rest.
  lemma {:induction false} ErrorOfRest(ss: seq<StmtForm>, k: seq<Token>)
    requires ProperStmts(ss) && k != [] && k[0].typ !in {TSemicolon, TElse} && ParseStmts(k, false).Err?
    ensures ParseProgram(StmtFormsTokens(ss, k)) == Err(ParseStmts(k, false).error)
    decreases |ss|
  {
    hide ParseStmt, StmtFormTokens, ProperStmt, StmtMeaning;
    if ss != [] {
      var k1 := StmtFormsTokens(ss[1..], k);
      RoundTrip.FirstOfStmtTokens(ss[0], k1);
      ErrorOfRest(ss[1..], k);
      if |ss| > 1 {
        RoundTrip.FirstOfStmtTokens(ss[1], StmtFormsTokens(ss[1..][1..], k));
      }
      RoundTrip.StmtReadBack(ss[0], k1);
    }
  }

  // A constant without a value is reported as such; a file that ends behind a complete expression
  // lacks what has to follow it, and one that ends before an operand has an unexpected token.
  lemma WhichError(ss: seq<StmtForm>, name: string, e: Form, k: seq<Token>)
    requires ProperStmts(ss) && Proper(e)
    ensures ParseProgram(StmtFormsTokens(ss, [Symbol(TConst)] + ([Name(name)] + ([Symbol(TSemicolon)] + k)))) == Err(ConstWithoutValue)
    ensures ParseProgram(StmtFormsTokens(ss, FormTokens(e, [Symbol(TEof)]))) == Err(UnexpectedEof)
    ensures ParseProgram(StmtFormsTokens(ss, [Name(name)] + ([Symbol(TAssign)] + [Symbol(TEof)]))) == Err(Unexpected(TEof))
  {
    hide StmtFormsTokens, FormTokens, Proper, ProperStmts, Meaning;
    NoValue(name, k);
    ErrorOfRest(ss, [Symbol(TConst)] + ([Name(name)] + ([Symbol(TSemicolon)] + k)));
    EndBehindExpression(e);
    RoundTrip.FirstToken(e, [Symbol(TEof)]);
    ErrorOfRest(ss, FormTokens(e, [Symbol(TEof)]));
    EndBeforeOperand(name);
    ErrorOfRest(ss, [Name(name)] + ([Symbol(TAssign)] + [Symbol(TEof)]));
  }

  lemma NoValue(name: string, k: seq<Token>)
    ensures ParseStmts([Symbol(TConst)] + ([Name(name)] + ([Symbol(TSemicolon)] + k)), false) == Err(ConstWithoutValue)
  {
    var ts := [Symbol(TConst)] + ([Name(name)] + ([Symbol(TSemicolon)] + k));
    assert ts[1..] == [Name(name)] + ([Symbol(TSemicolon)] + k);
    assert ts[1..][1..] == [Symbol(TSemicolon)] + k;
    assert ParseVarDecl(ts) == Err(ConstWithoutValue);
    StatementFails(ts, ConstWithoutValue);
  }

  lemma StatementFails(ts: seq<Token>, e: ParseError)
    requires !AtEof(ts) && ParseBareStmt(ts) == Err(e)
    ensures ParseStmts(ts, false) == Err(e)
  {
    hide ParseBareStmt;
    assert ParseStmt(ts) == Err(e);
  }

  lemma EndBehindExpression(e: Form)
    requires Proper(e)
    ensures ParseStmts(FormTokens(e, [Symbol(TEof)]), false) == Err(UnexpectedEof)
  {
    hide FormTokens, Proper, Meaning, ParseExpr;
    var end := [Symbol(TEof)];
    RoundTrip.EndsAt(TEof, e, end);
    RoundTrip.FirstToken(e, end);
    RoundTrip.ExprReadBack(e, end);
    assert Expect(end, TSemicolon) == Err(UnexpectedEof);
    StatementFails(FormTokens(e, end), UnexpectedEof);
  }

  lemma EndBeforeOperand(name: string)
    ensures ParseStmts([Name(name)] + ([Symbol(TAssign)] + [Symbol(TEof)]), false) == Err(Unexpected(TEof))
  {
    var ts := [Name(name)] + ([Symbol(TAssign)] + [Symbol(TEof)]);
    assert ts[1..][1..] == [Symbol(TEof)];
    var end := [Symbol(TEof)];
    assert ParseCall(end) == ParsePrimary(end) == Err(Unexpected(TEof));
    assert ParseBinary(3, end) == ParseBinary(2, end) == ParseBinary(1, end) == Err(Unexpected(TEof));
    assert ParseExpr(end) == Err(Unexpected(TEof));
    assert ParseExpr(ts) == Err(Unexpected(TEof));
    StatementFails(ts, Unexpected(TEof));
  }

  // The other way does not hold: in `5 = 3` the number is refused, though `5;` is a program.
  lemma RefusedForTheNext()
    ensures var five := Token(TInt, "5");
      && ParseProgram([five, Symbol(TAssign), Token(TInt, "3"), Symbol(TSemicolon), Symbol(TEof)]) == Err(Unexpected(TInt))
      && ParseProgram([five, Symbol(TSemicolon), Symbol(TEof)]).Ok?
  {
    var five := Token(TInt, "5");
    var ts := [five, Symbol(TAssign), Token(TInt, "3"), Symbol(TSemicolon), Symbol(TEof)];
    assert ParseExpr(ts) == Err(Unexpected(TInt));
    StatementFails(ts, Unexpected(TInt));
    var us := [five, Symbol(TSemicolon), Symbol(TEof)];
    assert us == StmtFormTokens(ExprForm(Word(five), 0), [Symbol(TEof)]);
    var ss := [ExprForm(Word(five), 0)];
    assert ss[1..] == [];
    RoundTrip.FormsReadBack(ss, [Symbol(TEof)]);
  }
}
