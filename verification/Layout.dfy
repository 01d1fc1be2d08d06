/**
  The texts that the scanner accepts, written down without it: tokens, with blanks and comments
  between them wherever a token would otherwise go on. The scanner accepts exactly these texts and
  reads each as the tokens it is made of, at the places where they stand.
*/
module Layout {
  import opened Ast
  import opened Tokens
  import opened Lexer
  import Printer
  import Decimal

  // ----- tokens -----

  const BLANKS: set<char> := {' ', '\t', '\n', '\U{0B}', '\U{0C}', '\r'}

  const KEYWORDS: set<string> := {"var", "const", "function", "array", "import", "if", "else", "loop", "as"}

  const OPERATORS: set<string> := {"+", "-", "/", "*", "%", "<", ">", "<=", ">=", "==", "===", "!=", "!=="}

  // How the tokens that always have the same text are written.
  function Spelling(typ: TokenType): string {
    match typ
    case TSemicolon => ";"
    case TParenOpen => "("
    case TParenClose => ")"
    case TAssign => "="
    case TComma => ","
    case TBraceOpen => "{"
    case TBraceClose => "}"
    case TPeriod => "."
    case TSquareOpen => "["
    case TSquareClose => "]"
    case TVar => "var"
    case TConst => "const"
    case TFunction => "function"
    case TArray => "array"
    case TImport => "import"
    case TIf => "if"
    case TElse => "else"
    case TLoop => "loop"
    case TAs => "as"
    case _ => ""
  }

  predicate Digit(c: char) { '0' <= c <= '9' }

  predicate WordChar(c: char) { 'a' <= c <= 'z' || 'A' <= c <= 'Z' || Digit(c) || c == '_' }

  predicate IsWord(s: string) { s != "" && !Digit(s[0]) && forall i :: 0 <= i < |s| ==> WordChar(s[i]) }

  predicate IsIdentifier(s: string) { IsWord(s) && s !in KEYWORDS }

  // The tokens that a text can contain.
  predicate Legal(t: Token) {
    match t.typ
    case TEof => false
    case TInt => t.text != "" && forall i :: 0 <= i < |t.text| ==> Digit(t.text[i])
    case TString => !('"' in t.text && '\'' in t.text)
    case TOperator => t.text in OPERATORS
    case TIdent => IsIdentifier(t.text)
    case _ => t.text == Spelling(t.typ)
  }

  // Nothing at the start of the text behind it makes a legal token, no string, longer or different.
  predicate Apart(t: Token, after: string) {
    after == "" ||
    if t.typ == TInt then !Digit(after[0])
    else if t.typ == TIdent || t.text in KEYWORDS then !WordChar(after[0])
    else if t.text == "/" then after[0] != '/' && after[0] != '*'
    else t.text in {"=", "==", "!=", "<", ">"} ==> after[0] != '='
  }

  // ----- texts -----

  // What a text consists of.
  datatype Item =
    | White(c: char)
    | LineComment(text: string)
    | BlockComment(text: string)
    | Quoted(quote: char, text: string)
    | Plain(token: Token)

  function ItemText(i: Item): string {
    match i
    case White(c) => [c]
    case LineComment(text) => "//" + text
    case BlockComment(text) => "/*" + text + "*/"
    case Quoted(quote, text) => [quote] + text + [quote]
    case Plain(token) => token.text
  }

  function ItemToken(i: Item): Option<Token> {
    match i
    case Quoted(_, text) => Some(Token(TString, text))
    case Plain(token) => Some(token)
    case _ => None
  }

  predicate HasClose(s: string) { exists k :: 0 <= k < |s| - 1 && s[k] == '*' && s[k + 1] == '/' }

  // The item can stand in front of the given text.
  predicate Fits(i: Item, after: string) {
    match i
    case White(c) => c in BLANKS
    case LineComment(text) => '\n' !in text && (after == "" || after[0] == '\n')
    case BlockComment(text) => !HasClose(text)
    case Quoted(quote, text) => quote in {'"', '\''} && quote !in text
    case Plain(token) => Legal(token) && token.typ != TString && Apart(token, after)
  }

  function Laid(items: seq<Item>): string {
    if items == [] then "" else ItemText(items[0]) + Laid(items[1..])
  }

  predicate IsLayout(items: seq<Item>) {
    items == [] || (Fits(items[0], Laid(items[1..])) && IsLayout(items[1..]))
  }

  function ItemTokens(items: seq<Item>): seq<Token> {
    if items == [] then []
    else (if ItemToken(items[0]).Some? then [ItemToken(items[0]).value] else []) + ItemTokens(items[1..])
  }

  // ----- one item -----

  lemma {:induction false} RunStops(w: string, s: string, p: char -> bool)
    requires (forall i :: 0 <= i < |w| ==> p(w[i])) && (s == [] || !p(s[0]))
    ensures Run(w + s, p) == |w|
  {
    if w == [] {
      assert w + s == s;
    } else {
      assert (w + s)[1..] == w[1..] + s;
      RunStops(w[1..], s, p);
    }
  }

  lemma {:induction false} FindStops(w: string, s: string, c: char)
    requires c !in w && (s == [] || s[0] == c)
    ensures Find(w + s, c) == |w|
  {
    if w == [] {
      assert w + s == s;
    } else {
      assert (w + s)[1..] == w[1..] + s;
      FindStops(w[1..], s, c);
    }
  }

  lemma {:induction false} CloseFound(w: string, s: string)
    requires !HasClose(w)
    ensures FindClose(w + "*/" + s) == |w|
  {
    var t := w + "*/" + s;
    assert t[|w|] == '*' && t[|w| + 1] == '/';
    if w != "" {
      assert t[0] == w[0];
      assert !(t[0] == '*' && t[1] == '/') by {
        assert |w| > 1 ==> t[1] == w[1];
      }
      assert t[1..] == w[1..] + "*/" + s;
      assert !HasClose(w[1..]) by {
        assert forall k :: 0 <= k < |w[1..]| ==> w[1..][k] == w[k + 1];
      }
      CloseFound(w[1..], s);
    }
  }

  lemma LineCommentRead(text: string, s: string)
    requires Fits(LineComment(text), s)
    ensures Next("//" + text + s) == Lexeme.Blank(2 + |text|)
  {
    assert "//" + text + s == "//" + (text + s);
    assert ("//" + text) + s == "//" + text + s && '\n' !in "//" + text;
    FindStops("//" + text, s, '\n');
  }

  lemma BlockCommentRead(text: string, s: string)
    requires !HasClose(text)
    ensures Next("/*" + text + "*/" + s) == Lexeme.Blank(4 + |text|)
  {
    var t := "/*" + text + "*/" + s;
    CloseFound(text, s);
    assert t[2..] == text + "*/" + s;
    assert t[0] == '/' && t[1] == '*';
    hide Find, FindClose, LongOperator, CharToken, Run;
  }

  lemma QuotedTextRead(q: char, text: string, s: string)
    requires q in {'"', '\''} && q !in text
    ensures Next([q] + text + [q] + s) == Lexed(Token(TString, text), 2 + |text|)
  {
    var w := [q] + text + [q] + s;
    FindStops(text, [q] + s, q);
    hide Find;
    assert w[1..] == text + ([q] + s);
    assert w[1..|text| + 1] == text;
    assert w[0] == q && |w| > 1;
    assert LongOperator(w) == "" by {
      assert w[..2][0] == q;
      if |w| > 2 {
        assert w[..3][0] == q;
      }
    }
    hide LongOperator;
  }

  lemma WordRead(w: string, s: string)
    requires IsWord(w) && (s == "" || !WordChar(s[0]))
    ensures Next(w + s) == Lexed(Token(WordType(w), w), |w|)
  {
    hide WordType, Run;
    RunStops(w, s, IsNameChar);
    var t := w + s;
    assert t[..|w|] == w && t[0] == w[0] && WordChar(w[0]);
    NoSign(t);
    hide LongOperator, CharToken, IsSpace;
  }

  // What starts with a letter, digit or underscore starts with no sign, blank or comment.
  lemma NoSign(t: string)
    requires t != [] && WordChar(t[0])
    ensures LongOperator(t) == "" && CharToken(t[0]) == TEof && !IsSpace(t[0])
  {
    assert |t| > 1 ==> t[..2][0] == t[0];
    assert |t| > 2 ==> t[..3][0] == t[0];
  }

  lemma NumberRead(w: string, s: string)
    requires Legal(Token(TInt, w)) && (s == "" || !Digit(s[0]))
    ensures Next(w + s) == Lexed(Token(TInt, w), |w|)
  {
    hide Run;
    RunStops(w, s, Decimal.IsDigit);
    var t := w + s;
    assert t[..|w|] == w && t[0] == w[0] && WordChar(w[0]);
    NoSign(t);
    hide LongOperator, CharToken, IsSpace;
  }

  // The signs of one character.
  const SIGNS: set<char> := {';', '(', ')', '+', '-', '/', '*', '%', '=', ',', '{', '}', '.', '[', ']', '<', '>'}

  const LONG_SIGNS: set<string> := {"===", "!==", "==", "!=", ">=", "<="}

  lemma LongSignRead(w: string, s: string)
    requires w in LONG_SIGNS
    requires w in {"==", "!="} ==> s == "" || s[0] != '='
    ensures LongOperator(w + s) == w
  {
    var t := w + s;
    assert t[..|w|] == w;
    if |w| == 2 && s != "" {
      var three := t[..3];
      assert three[0] == w[0] && three[2] == s[0];
      assert w in {">=", "<="} ==> three[0] == '>' || three[0] == '<';
      assert three != "===" && three != "!==";
    }
  }

  lemma ShortSignStands(w: string, s: string)
    requires |w| == 1 && w[0] in SIGNS
    requires w[0] in {'=', '<', '>'} ==> s == "" || s[0] != '='
    ensures LongOperator(w + s) == ""
  {
    var t := w + s;
    assert t[0] == w[0];
    if s != "" {
      assert t[..2][0] == w[0] && t[..2][1] == s[0];
      if |t| > 2 {
        assert t[..3][0] == w[0] && t[..3][1] == s[0];
      }
    }
  }

  lemma SignRead(w: string, s: string)
    requires w in LONG_SIGNS || (|w| == 1 && w[0] in SIGNS)
    requires Apart(Token(TOperator, w), s)
    ensures Next(w + s) == Lexed(Token(if |w| > 1 then TOperator else CharToken(w[0]), w), |w|)
  {
    var t := w + s;
    assert t[..|w|] == w && t[0] == w[0];
    if |w| == 1 {
      assert w == [w[0]];
      ShortSignStands(w, s);
      assert s != "" ==> t[1] == s[0];
    } else {
      LongSignRead(w, s);
    }
    hide LongOperator, Find, FindClose, Run;
  }

  // What the table of one-character tokens and the list of keywords make of legal tokens.
  lemma LegalSigns(t: Token)
    requires Legal(t) && t.typ !in {TInt, TString, TIdent} && t.text !in KEYWORDS
    ensures t.text in LONG_SIGNS || (|t.text| == 1 && t.text[0] in SIGNS)
    ensures t.typ == if |t.text| > 1 then TOperator else CharToken(t.text[0])
  {
    match t.typ
    case TOperator => LegalOperators(t.text);
    case TVar =>
    case TConst =>
    case TFunction =>
    case TArray =>
    case TImport =>
    case TIf =>
    case TElse =>
    case TLoop =>
    case TAs =>
    case _ =>
  }

  lemma LegalOperators(w: string)
    requires w in OPERATORS
    ensures w in LONG_SIGNS || (|w| == 1 && w[0] in SIGNS && CharToken(w[0]) == TOperator)
    ensures w in LONG_SIGNS ==> |w| > 1
  {
  }

  lemma LegalWords(t: Token)
    requires Legal(t) && (t.typ == TIdent || t.text in KEYWORDS) && t.typ != TString
    ensures IsWord(t.text) && WordType(t.text) == t.typ
  {
  }

  lemma PlainRead(t: Token, s: string)
    requires Legal(t) && t.typ != TString && Apart(t, s)
    ensures t.text != "" && Next(t.text + s) == Lexed(t, |t.text|)
  {
    hide Next, CharToken, WordType;
    if t.typ == TInt {
      NumberRead(t.text, s);
    } else if t.typ == TIdent || t.text in KEYWORDS {
      LegalWords(t);
      WordRead(t.text, s);
    } else {
      LegalSigns(t);
      SignRead(t.text, s);
    }
  }

  // What the scanner makes of an item.
  function Reading(i: Item): Lexeme {
    if ItemToken(i).Some? then Lexed(ItemToken(i).value, |ItemText(i)|) else Lexeme.Blank(|ItemText(i)|)
  }

  // Every item is read as what it is in front of any text that it fits.
  lemma ItemRead(i: Item, s: string)
    requires Fits(i, s)
    ensures ItemText(i) != "" && Next(ItemText(i) + s) == Reading(i)
  {
    match i
    case White(c) =>
      hide Find, FindClose, LongOperator, CharToken, Run;
      assert ([c] + s)[0] == c;
    case LineComment(text) => LineCommentRead(text, s);
    case BlockComment(text) =>
      BlockCommentRead(text, s);
    case Quoted(quote, text) => QuotedTextRead(quote, text, s);
    case Plain(token) => PlainRead(token, s);
  }

  // ----- from items to tokens -----

  // A token whose text stands behind the given one: on the line counted by the breaks up to its
  // end, in columns counted from the last of them.
  function StandsBehind(t: Token, before: string, text: string): (r: LexToken)
    ensures r.token == t
  {
    var line := 1 + Breaks(before + text);
    LexToken(t, line, line, 1 + LastLine(before), 1 + LastLine(before + text))
  }

  // The tokens of the items at the places where they stand, and the end of the file.
  function Standing(before: string, items: seq<Item>): seq<LexToken>
    decreases |items|
  {
    if items == [] then [StandsBehind(Printer.Symbol(TEof), before, "")]
    else
      var text := ItemText(items[0]);
      (if ItemToken(items[0]).Some? then [StandsBehind(ItemToken(items[0]).value, before, text)] else [])
      + Standing(before + text, items[1..])
  }

  lemma PlacedStands(t: Token, before: string, text: string)
    ensures Placed(t, Advanced(START, before), Advanced(START, before + text)) == StandsBehind(t, before, text)
  {
    PositionsCount(before);
    PositionsCount(before + text);
  }

  // The scanner reads every layout as its tokens, each at its place, whatever was read before.
  lemma {:induction false} LayoutRead(before: string, items: seq<Item>)
    requires IsLayout(items)
    ensures Lex(Laid(items), Advanced(START, before)) == Tokenized(Standing(before, items))
    decreases |items|
  {
    hide Next, Fits, Advanced, Breaks, LastLine, ItemText, ItemToken, StandsBehind, Placed;
    if items == [] {
      assert before + "" == before;
      PlacedStands(Printer.Symbol(TEof), before, "");
    } else {
      var text, rest := ItemText(items[0]), Laid(items[1..]);
      ItemRead(items[0], rest);
      AdvancedTwice(START, before, text);
      assert (text + rest)[..|text|] == text && (text + rest)[|text|..] == rest;
      LayoutRead(before + text, items[1..]);
      if ItemToken(items[0]).Some? {
        PlacedStands(ItemToken(items[0]).value, before, text);
      }
    }
  }

  lemma {:induction false} StandingTokens(before: string, items: seq<Item>)
    ensures TokensOf(Standing(before, items)) == ItemTokens(items) + [Printer.Symbol(TEof)]
    decreases |items|
  {
    hide ItemText, ItemToken, Breaks, LastLine, TokensOf, Printer.Symbol;
    if items == [] {
      FirstTokenOf(StandsBehind(Printer.Symbol(TEof), before, ""), []);
      NoTokens();
      assert Standing(before, items) == [StandsBehind(Printer.Symbol(TEof), before, "")] + [];
    } else {
      var text := ItemText(items[0]);
      var rest := ItemTokens(items[1..]) + [Printer.Symbol(TEof)];
      StandingTokens(before + text, items[1..]);
      if ItemToken(items[0]).Some? {
        var t := ItemToken(items[0]).value;
        FirstTokenOf(StandsBehind(t, before, text), Standing(before + text, items[1..]));
        assert [t] + ItemTokens(items[1..]) + [Printer.Symbol(TEof)] == [t] + rest;
      } else {
        assert [] + ItemTokens(items[1..]) == ItemTokens(items[1..]);
        assert [] + Standing(before + text, items[1..]) == Standing(before + text, items[1..]);
      }
    }
  }

  // ----- from texts to items -----

  // The item that an accepted text starts with.
  function ItemAt(s: string): Item
    requires s != "" && !Next(s).Unreadable?
  {
    var n := Next(s).len;
    if Next(s).Lexed? then
      if Next(s).token.typ == TString then Quoted(s[0], Next(s).token.text) else Plain(Next(s).token)
    else if n == 1 then White(s[0])
    else if s[1] == '/' then LineComment(s[2..n])
    else BlockComment(s[2..n - 2])
  }

  // The item is what the text starts with, and fits what follows.
  ghost predicate StartsWith(s: string, i: Item, n: nat) {
    n <= |s| && ItemText(i) == s[..n] && Fits(i, s[n..])
  }

  lemma LineCommentAt(s: string)
    requires |s| > 1 && s[0] == '/' && s[1] == '/'
    ensures var n := Find(s, '\n');
      n >= 2 && StartsWith(s, LineComment(s[2..n]), n)
  {
    var n := Find(s, '\n');
    assert s[..n] == "//" + s[2..n];
    assert n < |s| ==> s[n..][0] == '\n';
  }

  lemma {:induction false} FirstClose(s: string)
    ensures var n := FindClose(s);
      !HasClose(s[..n]) && (n < |s| ==> s[n] == '*' && s[n + 1] == '/')
  {
    if |s| >= 2 && !(s[0] == '*' && s[1] == '/') {
      FirstClose(s[1..]);
      var n := FindClose(s);
      assert s[..n][1..] == s[1..][..n - 1];
      assert forall k :: 0 < k < n ==> s[..n][k] == s[1..][..n - 1][k - 1];
    }
  }

  lemma BlockCommentAt(s: string)
    requires |s| > 1 && s[0] == '/' && s[1] == '*' && FindClose(s[2..]) < |s| - 2
    ensures var n := FindClose(s[2..]) + 4;
      StartsWith(s, BlockComment(s[2..n - 2]), n)
  {
    var n := FindClose(s[2..]) + 4;
    FirstClose(s[2..]);
    assert s[2..][..n - 4] == s[2..n - 2];
    assert s[n - 2] == '*' && s[n - 1] == '/';
    assert s[..n] == "/*" + s[2..n - 2] + "*/";
  }

  lemma QuotedAt(s: string)
    requires s != "" && s[0] in {'"', '\''} && Find(s[1..], s[0]) < |s| - 1
    ensures var n := Find(s[1..], s[0]);
      StartsWith(s, Quoted(s[0], s[1..n + 1]), n + 2)
  {
    var n := Find(s[1..], s[0]);
    assert s[1..][..n] == s[1..n + 1];
    assert s[..n + 2] == [s[0]] + s[1..n + 1] + [s[0]];
  }

  lemma NumberAt(s: string)
    requires s != "" && Digit(s[0])
    ensures var n := Run(s, Decimal.IsDigit);
      n > 0 && StartsWith(s, Plain(Token(TInt, s[..n])), n)
  {
    var n := Run(s, Decimal.IsDigit);
    assert n < |s| ==> s[n..][0] == s[n];
  }

  lemma WordTypeLegal(w: string)
    requires IsWord(w)
    ensures Legal(Token(WordType(w), w)) && WordType(w) != TInt && WordType(w) != TString
    ensures WordType(w) == TIdent || w in KEYWORDS
  {
  }

  lemma WordAt(s: string)
    requires s != "" && WordChar(s[0]) && !Digit(s[0])
    ensures var n := Run(s, IsNameChar);
      n > 0 && StartsWith(s, Plain(Token(WordType(s[..n]), s[..n])), n)
  {
    var n := Run(s, IsNameChar);
    assert n < |s| ==> s[n..][0] == s[n];
    WordTypeLegal(s[..n]);
  }

  lemma LongSignAt(s: string)
    requires LongOperator(s) != ""
    ensures var w := LongOperator(s);
      |w| <= |s| && StartsWith(s, Plain(Token(TOperator, w)), |w|)
  {
    var w := LongOperator(s);
    if |s| > 2 {
      assert s[2..][0] == s[2] && s[..3] == s[..2] + [s[2]];
    }
  }

  lemma ShortSignLegal(c: char)
    requires CharToken(c) != TEof
    ensures Legal(Token(CharToken(c), [c])) && CharToken(c) !in {TInt, TString, TIdent}
  {
    if CharToken(c) == TOperator {
      assert [c] in {"+", "-", "/", "*", "%", "<", ">"};
    }
  }

  lemma ShortSignAt(s: string)
    requires s != "" && LongOperator(s) == "" && CharToken(s[0]) != TEof
    requires |s| > 1 && s[0] == '/' ==> s[1] != '/' && s[1] != '*'
    ensures StartsWith(s, Plain(Token(CharToken(s[0]), s[..1])), 1) && CharToken(s[0]) != TString
  {
    assert s[..1] == [s[0]];
    ShortSignLegal(s[0]);
    if |s| > 1 {
      assert s[1..][0] == s[1];
      var two := s[..2];
      assert two[0] == s[0] && two[1] == s[1];
      assert two == [s[0], '='] ==> (s[0] == '=' ==> two == "==") && (s[0] == '<' ==> two == "<=") && (s[0] == '>' ==> two == ">=");
    }
  }

  // What an accepted text starts with is an item that fits the rest, and of the length read.
  lemma ItemFits(s: string)
    requires s != "" && !Next(s).Unreadable?
    ensures StartsWith(s, ItemAt(s), Next(s).len)
  {
    hide StartsWith, Run, Find, FindClose, LongOperator, CharToken, WordType;
    if |s| > 1 && s[0] == '/' && s[1] == '/' {
      LineCommentAt(s);
    } else if |s| > 1 && s[0] == '/' && s[1] == '*' {
      BlockCommentAt(s);
    } else if IsSpace(s[0]) {
      WhiteAt(s);
    } else if LongOperator(s) != "" {
      LongSignAt(s);
    } else if CharToken(s[0]) != TEof {
      ShortSignAt(s);
    } else if s[0] == '"' || s[0] == '\'' {
      QuotedAt(s);
    } else if Decimal.IsDigit(s[0]) {
      NumberAt(s);
    } else if IsAlpha(s[0]) || s[0] == '_' {
      WordAt(s);
      WordTypeLegal(s[..Run(s, IsNameChar)]);
    }
  }

  lemma WhiteAt(s: string)
    requires s != "" && IsSpace(s[0])
    ensures StartsWith(s, White(s[0]), 1)
  {
  }

  lemma {:induction false} TextItems(s: string, pos: Position) returns (items: seq<Item>)
    requires Lex(s, pos).Tokenized?
    ensures IsLayout(items) && Laid(items) == s
    decreases |s|
  {
    hide Next, Fits, ItemText, ItemAt;
    if s == "" {
      items := [];
    } else {
      var n := Next(s).len;
      var rest := TextItems(s[n..], Advanced(pos, s[..n]));
      ItemFits(s);
      items := [ItemAt(s)] + rest;
      assert items[1..] == rest;
    }
  }

  // The scanner accepts exactly the layouts: the texts made of tokens, and of blanks and comments,
  // in which no token is followed by what would extend it. It reads a layout as its tokens, each
  // at its place, and the end of the file.
  lemma AcceptedTexts(s: string)
    ensures Lex(s, START).Tokenized? <==> exists items :: IsLayout(items) && Laid(items) == s
    ensures forall items :: IsLayout(items) && Laid(items) == s ==> Lex(s, START) == Tokenized(Standing("", items))
  {
    hide Lex, IsLayout, Laid, Standing;
    if Lex(s, START).Tokenized? {
      var items := TextItems(s, START);
    }
    forall items | IsLayout(items) && Laid(items) == s
      ensures Lex(s, START) == Tokenized(Standing("", items))
    {
      LayoutRead("", items);
    }
  }

  // ----- texts that are rejected -----

  // The same in front of more text.
  predicate IsLayoutBefore(items: seq<Item>, tail: string) {
    items == [] || (Fits(items[0], Laid(items[1..]) + tail) && IsLayoutBefore(items[1..], tail))
  }

  // What no item starts with: a character that starts nothing, a quote that does not return, or a
  // comment that is not closed.
  predicate Wrong(tail: string, error: LexError) {
    && tail != ""
    && match error
       case UnknownToken(c) =>
         && tail[0] == c && c !in BLANKS && c !in SIGNS && !WordChar(c) && c !in {'"', '\''}
         && !("!=" <= tail)
       case UnterminatedString => tail[0] in {'"', '\''} && tail[0] !in tail[1..]
       case NoCharacter => "/*" <= tail && !HasClose(tail[2..])
  }

  lemma UnknownIsWrong(s: string, c: char)
    requires s != ""
    ensures Wrong(s, UnknownToken(c)) <==>
            s[0] == c && !IsSpace(c) && LongOperator(s) == "" && CharToken(c) == TEof && !WordChar(c) && c != '"' && c != '\''
  {
    if |s| > 1 {
      assert s[..2] == "!=" <==> s[0] == '!' && s[1] == '=';
      assert s[..2][0] == s[0];
      if |s| > 2 {
        assert s[..3][0] == s[0] && s[..3][1] == s[1];
      }
    }
  }

  lemma WrongIs(s: string, error: LexError)
    requires s != ""
    ensures Next(s) == Unreadable(error) <==> Wrong(s, error)
  {
    hide Next, Wrong;
    match error
    case UnknownToken(c) => UnknownIs(s, c);
    case UnterminatedString => UnterminatedIs(s);
    case NoCharacter => UnclosedIs(s);
  }

  lemma UnknownIs(s: string, c: char)
    requires s != ""
    ensures Next(s) == Unreadable(UnknownToken(c)) <==> Wrong(s, UnknownToken(c))
  {
    UnknownIsWrong(s, c);
    SlashIsSign();
    hide LongOperator, CharToken, Run, Find, FindClose, Wrong, IsSpace;
  }

  lemma UnterminatedIs(s: string)
    requires s != ""
    ensures Next(s) == Unreadable(UnterminatedString) <==> Wrong(s, UnterminatedString)
  {
    if s[0] in {'"', '\''} {
      assert LongOperator(s) == "" by {
        assert |s| > 1 ==> s[..2][0] == s[0];
        assert |s| > 2 ==> s[..3][0] == s[0];
      }
    }
    hide LongOperator, Run, FindClose;
  }

  lemma UnclosedIs(s: string)
    requires s != ""
    ensures Next(s) == Unreadable(NoCharacter) <==> Wrong(s, NoCharacter)
  {
    hide LongOperator, CharToken, Run, Find, IsSpace;
    if |s| > 1 {
      FirstClose(s[2..]);
      var n := FindClose(s[2..]);
      assert n == |s| - 2 ==> s[2..][..n] == s[2..];
      assert n < |s| - 2 ==> HasClose(s[2..]);
    }
  }

  lemma SlashIsSign()
    ensures CharToken('/') == TOperator
  {
  }

  lemma {:induction false} LayoutBefore(items: seq<Item>, tail: string, pos: Position, error: LexError)
    requires IsLayoutBefore(items, tail) && tail != "" && Next(tail) == Unreadable(error)
    ensures Lex(Laid(items) + tail, pos) == Failed(error)
    decreases |items|
  {
    hide Next, Fits, Advanced, ItemText, ItemToken;
    if items == [] {
      assert "" + tail == tail;
    } else {
      var text, rest := ItemText(items[0]), Laid(items[1..]) + tail;
      ItemRead(items[0], rest);
      assert Laid(items) + tail == text + rest;
      assert (text + rest)[..|text|] == text && (text + rest)[|text|..] == rest;
      LayoutBefore(items[1..], tail, Advanced(pos, text), error);
    }
  }

  lemma {:induction false} WrongPart(s: string, pos: Position) returns (items: seq<Item>, tail: string)
    requires Lex(s, pos).Failed?
    ensures IsLayoutBefore(items, tail) && Laid(items) + tail == s && tail != "" && Next(tail) == Unreadable(Lex(s, pos).error)
    decreases |s|
  {
    hide Next, Fits, ItemText, ItemAt;
    if Next(s).Unreadable? {
      items, tail := [], s;
      assert "" + s == s;
    } else {
      var n := Next(s).len;
      var rest;
      rest, tail := WrongPart(s[n..], Advanced(pos, s[..n]));
      ItemFits(s);
      items := [ItemAt(s)] + rest;
      assert items[1..] == rest;
      assert Laid(items) + tail == ItemText(ItemAt(s)) + (Laid(rest) + tail);
    }
  }

  // A text is rejected with an error exactly if what follows some layout at its start is wrong in
  // this way.
  lemma RejectedTexts(s: string, error: LexError)
    ensures Lex(s, START) == Failed(error) <==>
            exists items, tail :: IsLayoutBefore(items, tail) && Laid(items) + tail == s && Wrong(tail, error)
  {
    hide Lex, Next, Laid, IsLayoutBefore, Wrong;
    if Lex(s, START) == Failed(error) {
      var items, tail := WrongPart(s, START);
      WrongIs(tail, error);
    }
    forall items, tail | IsLayoutBefore(items, tail) && Laid(items) + tail == s && Wrong(tail, error)
      ensures Lex(s, START) == Failed(error)
    {
      WrongHasText(tail, error);
      WrongIs(tail, error);
      LayoutBefore(items, tail, START, error);
    }
  }

  lemma WrongHasText(s: string, error: LexError)
    requires Wrong(s, error)
    ensures s != ""
  {
  }

  // A legal token is read off the front of a text exactly if what follows does not extend it.
  lemma TokenEnds(t: Token, s: string)
    requires Legal(t) && t.typ != TString
    ensures t.text != "" && (Next(t.text + s) == Lexed(t, |t.text|) <==> Apart(t, s))
  {
    hide Next, Apart;
    LegalIsText(t);
    if Apart(t, s) {
      PlainRead(t, s);
    }
    if Next(t.text + s) == Lexed(t, |t.text|) {
      ItemFits(t.text + s);
      assert (t.text + s)[|t.text|..] == s;
    }
  }

  lemma LegalIsText(t: Token)
    requires Legal(t)
    ensures t.typ != TString ==> t.text != ""
  {
  }

  // ----- the plainest layout -----

  // A string is put in the quotes that do not occur in it.
  function ItemOf(t: Token): Item {
    if t.typ == TString then Quoted(if '"' in t.text then '\'' else '"', t.text) else Plain(t)
  }

  // The tokens with one space behind each.
  function Spaced(ts: seq<Token>): seq<Item> {
    if ts == [] then [] else [ItemOf(ts[0]), White(' ')] + Spaced(ts[1..])
  }

  lemma SpaceEnds(t: Token, s: string)
    requires Legal(t)
    ensures Fits(ItemOf(t), [' '] + s) && ItemToken(ItemOf(t)) == Some(t)
  {
  }

  lemma {:induction false} SpacedLayout(ts: seq<Token>)
    requires forall i :: 0 <= i < |ts| ==> Legal(ts[i])
    ensures IsLayout(Spaced(ts)) && ItemTokens(Spaced(ts)) == ts
  {
    hide Fits, Legal, ItemToken, ItemOf;
    if ts != [] {
      var items := Spaced(ts);
      var rest := [White(' ')] + Spaced(ts[1..]);
      SpacedLayout(ts[1..]);
      assert items[1..] == rest && rest[1..] == Spaced(ts[1..]);
      SpaceEnds(ts[0], Laid(Spaced(ts[1..])));
      SpaceFits(Laid(Spaced(ts[1..])));
      assert Laid(rest) == [' '] + Laid(Spaced(ts[1..]));
      assert [] + ItemTokens(Spaced(ts[1..])) == ItemTokens(Spaced(ts[1..]));
    }
  }

  lemma SpaceFits(s: string)
    ensures Fits(White(' '), s) && ItemToken(White(' ')).None?
  {
  }

  // The space-separated text of any legal tokens is read as these tokens.
  lemma RenderedReadBack(ts: seq<Token>)
    requires forall i :: 0 <= i < |ts| ==> Legal(ts[i])
    ensures var r := Lex(Laid(Spaced(ts)), START);
      r.Tokenized? && TokensOf(r.tokens) == ts + [Printer.Symbol(TEof)]
  {
    hide Lex, Legal;
    SpacedLayout(ts);
    LayoutRead("", Spaced(ts));
    StandingTokens("", Spaced(ts));
  }
}
