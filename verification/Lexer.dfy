/** The scanner of src/lexer.c: what each prefix of a source text is read as. */
module Lexer {
  import opened Ast
  import opened Tokens
  import Decimal
  import opened Printer

  predicate IsSpace(c: char) { c in {' ', '\t', '\n', '\U{0B}', '\U{0C}', '\r'} }

  predicate IsAlpha(c: char) { 'a' <= c <= 'z' || 'A' <= c <= 'Z' }

  predicate IsNameChar(c: char) { IsAlpha(c) || Decimal.IsDigit(c) || c == '_' }

  // NoCharacter is the failed assertion that ends an unterminated block comment.
  datatype LexError = UnterminatedString | NoCharacter | UnknownToken(c: char)

  // What a text starts with: a blank or comment, a token, or something unreadable.
  datatype Lexeme = Blank(len: nat) | Lexed(token: Token, len: nat) | Unreadable(error: LexError)

  // The length of the longest prefix of which all characters satisfy p.
  function Run(s: string, p: char -> bool): (n: nat)
    ensures n <= |s| && (forall i :: 0 <= i < n ==> p(s[i])) && (n < |s| ==> !p(s[n]))
  {
    if s == [] || !p(s[0]) then 0 else 1 + Run(s[1..], p)
  }

  // The position of the first c; the length of s if there is none.
  function Find(s: string, c: char): (n: nat)
    ensures n <= |s| && (forall i :: 0 <= i < n ==> s[i] != c) && (n < |s| ==> s[n] == c)
  {
    if s == [] || s[0] == c then 0 else 1 + Find(s[1..], c)
  }

  // The position of the first "*/"; the length of s if there is none.
  function FindClose(s: string): (n: nat)
    ensures n <= |s| && (n < |s| ==> n + 2 <= |s|)
  {
    if |s| < 2 then |s|
    else if s[0] == '*' && s[1] == '/' then 0
    else 1 + FindClose(s[1..])
  }

  function LongOperator(s: string): string {
    if |s| > 2 && s[..3] == "===" then "==="
    else if |s| > 2 && s[..3] == "!==" then "!=="
    else if |s| > 1 && s[..2] in {"==", "!=", ">=", "<="} then s[..2]
    else ""
  }

  // The table of one-character tokens; TEof stands for no entry.
  function CharToken(c: char): TokenType {
    match c
    case ';' => TSemicolon
    case '(' => TParenOpen
    case ')' => TParenClose
    case '+' => TOperator
    case '-' => TOperator
    case '/' => TOperator
    case '*' => TOperator
    case '%' => TOperator
    case '=' => TAssign
    case ',' => TComma
    case '{' => TBraceOpen
    case '}' => TBraceClose
    case '.' => TPeriod
    case '[' => TSquareOpen
    case ']' => TSquareClose
    case '<' => TOperator
    case '>' => TOperator
    case _ => TEof
  }

  function WordType(s: string): TokenType {
    if s == "var" then TVar
    else if s == "const" then TConst
    else if s == "function" then TFunction
    else if s == "array" then TArray
    else if s == "import" then TImport
    else if s == "if" then TIf
    else if s == "else" then TElse
    else if s == "loop" then TLoop
    else if s == "as" then TAs
    else TIdent
  }

  // One round of the loop in lex_analyze.
  function Next(s: string): (r: Lexeme)
    requires s != []
    ensures !r.Unreadable? ==> 0 < r.len <= |s|
  {
    if |s| > 1 && s[0] == '/' && s[1] == '/' then Blank(Find(s, '\n'))
    else if |s| > 1 && s[0] == '/' && s[1] == '*' then
      if FindClose(s[2..]) == |s| - 2 then Unreadable(NoCharacter) else Blank(FindClose(s[2..]) + 4)
    else if IsSpace(s[0]) then Blank(1)
    else if LongOperator(s) != "" then Lexed(Token(TOperator, LongOperator(s)), |LongOperator(s)|)
    else if CharToken(s[0]) != TEof then Lexed(Token(CharToken(s[0]), s[..1]), 1)
    else if s[0] == '"' || s[0] == '\'' then
      var n := Find(s[1..], s[0]);
      if n == |s| - 1 then Unreadable(UnterminatedString) else Lexed(Token(TString, s[1..n + 1]), n + 2)
    else if Decimal.IsDigit(s[0]) then
      var n := Run(s, Decimal.IsDigit);
      Lexed(Token(TInt, s[..n]), n)
    else if IsAlpha(s[0]) || s[0] == '_' then
      var n := Run(s, IsNameChar);
      Lexed(Token(WordType(s[..n]), s[..n]), n)
    else Unreadable(UnknownToken(s[0]))
  }

  // ----- positions -----

  datatype Position = Position(line: nat, column: nat)

  const START := Position(1, 1)

  predicate IsBreak(c: char) { c == '\r' || c == '\n' }

  // lex_char_forward
  function Moved(pos: Position, c: char): Position {
    if IsBreak(c) then Position(pos.line + 1, 1) else Position(pos.line, pos.column + 1)
  }

  function Advanced(pos: Position, s: string): Position
    decreases |s|
  {
    if s == [] then pos else Moved(Advanced(pos, s[..|s| - 1]), s[|s| - 1])
  }

  lemma {:induction false} AdvancedTwice(pos: Position, a: string, b: string)
    ensures Advanced(pos, a + b) == Advanced(Advanced(pos, a), b)
    decreases |b|
  {
    if b == [] {
      assert a + b == a;
    } else {
      AdvancedTwice(pos, a, b[..|b| - 1]);
      assert (a + b)[..|a + b| - 1] == a + b[..|b| - 1];
    }
  }

  function Breaks(s: string): nat {
    if s == [] then 0 else Breaks(s[..|s| - 1]) + if s[|s| - 1] in {'\r', '\n'} then 1 else 0
  }

  // The length of the last line of s.
  function LastLine(s: string): nat {
    if s == [] || s[|s| - 1] in {'\r', '\n'} then 0 else 1 + LastLine(s[..|s| - 1])
  }

  // Line and column count the line breaks and the characters behind the last one.
  lemma {:induction false} PositionsCount(s: string)
    ensures Advanced(START, s) == Position(1 + Breaks(s), 1 + LastLine(s))
    decreases |s|
  {
    if s != [] {
      PositionsCount(s[..|s| - 1]);
    }
  }

  // ----- whole texts -----

  datatype LexToken = LexToken(token: Token, lineStart: nat, lineEnd: nat, columnStart: nat, columnEnd: nat)

  datatype LexResult = Tokenized(tokens: seq<LexToken>) | Failed(error: LexError)

  // A token is recorded with the line on which it ends.
  function Placed(t: Token, before: Position, after: Position): LexToken {
    LexToken(t, after.line, after.line, before.column, after.column)
  }

  function Prepend(ts: seq<LexToken>, r: LexResult): LexResult {
    if r.Tokenized? then Tokenized(ts + r.tokens) else r
  }

  // lex_analyze on the rest s of a text, reached at the given position
  function Lex(s: string, pos: Position): LexResult
    decreases |s|
  {
    if s == [] then Tokenized([Placed(Symbol(TEof), pos, pos)])
    else
      match Next(s)
      case Unreadable(error) => Failed(error)
      case Blank(n) => Lex(s[n..], Advanced(pos, s[..n]))
      case Lexed(t, n) => Prepend([Placed(t, pos, Advanced(pos, s[..n]))], Lex(s[n..], Advanced(pos, s[..n])))
  }

  function TokensOf(ts: seq<LexToken>): seq<Token> {
    seq(|ts|, i requires 0 <= i < |ts| => ts[i].token)
  }

  // ----- maximal munch -----

  predicate IsOperatorText(op: string) {
    op in {"===", "!==", "==", "!=", ">=", "<="} || (|op| == 1 && CharToken(op[0]) != TEof)
  }

  // Where an operator or punctuation sign is read, it is the longest one the text starts with.
  lemma LongestOperator(s: string, op: string)
    requires s != [] && Next(s).Lexed? && IsOperatorText(Next(s).token.text)
    requires IsOperatorText(op) && op <= s
    ensures Next(s).token.text <= s && |op| <= Next(s).len
  {
    var t := Next(s).token;
    if |op| == 3 {
      assert s[..3] == op;
    } else if |op| == 2 {
      assert s[..2] == op;
    }
  }

  // ----- tiling -----

  // The pieces a text consists of: blanks and comments, and tokens.
  datatype Piece = Piece(text: string, token: Option<Token>)

  function Pieces(s: string): seq<Piece>
    decreases |s|
  {
    if s == [] then []
    else
      match Next(s)
      case Unreadable(_) => []
      case Blank(n) => [Piece(s[..n], None)] + Pieces(s[n..])
      case Lexed(t, n) => [Piece(s[..n], Some(t))] + Pieces(s[n..])
  }

  function Glued(ps: seq<Piece>): string {
    if ps == [] then "" else ps[0].text + Glued(ps[1..])
  }

  function TokensIn(ps: seq<Piece>): seq<Token> {
    if ps == [] then [] else (if ps[0].token.Some? then [ps[0].token.value] else []) + TokensIn(ps[1..])
  }

  lemma FirstTokenOf(t: LexToken, ts: seq<LexToken>)
    ensures TokensOf([t] + ts) == [t.token] + TokensOf(ts)
  {
  }

  // The pieces of a readable text tile it: none is empty, one follows the other without gap or
  // overlap, and the tokens among them, with the end-of-file token, are the lexer's tokens.
  lemma {:induction false} PiecesTile(s: string, pos: Position)
    requires Lex(s, pos).Tokenized?
    ensures Glued(Pieces(s)) == s && forall p :: p in Pieces(s) ==> p.text != ""
    ensures TokensOf(Lex(s, pos).tokens) == TokensIn(Pieces(s)) + [Symbol(TEof)]
    decreases |s|
  {
    hide Next, TokensOf, Advanced, Symbol;
    if s == [] {
      var end := Placed(Symbol(TEof), pos, pos);
      FirstTokenOf(end, []);
      NoTokens();
      assert [end] + [] == [end] && [end.token] + [] == [] + [end.token];
    } else {
      var n := Next(s).len;
      var pos' := Advanced(pos, s[..n]);
      PiecesTile(s[n..], pos');
      assert s[..n] + s[n..] == s;
      assert Pieces(s)[1..] == Pieces(s[n..]);
      if Next(s).Lexed? {
        FirstTokenOf(Placed(Next(s).token, pos, pos'), Lex(s[n..], pos').tokens);
      }
    }
  }

  lemma NoTokens()
    ensures TokensOf([]) == []
  {
  }
}
