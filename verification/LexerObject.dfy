/**
  The lexer of src/lexer.c: an object that moves an index over the source text, counts lines and
  columns, and appends tokens. Its run computes exactly what the functions in Lexer prescribe.
*/
module LexerObject {
  import opened Tokens
  import opened Lexer
  import Decimal
  import Printer

  class Scanner {
    const buf: string
    var index: nat
    var currentLine: nat
    var currentColumn: nat
    var tokens: seq<LexToken>

    constructor (buf: string)
      ensures this.buf == buf && Valid() && index == 0 && tokens == []
    {
      this.buf, index, currentLine, currentColumn, tokens := buf, 0, 1, 1, [];
    }

    // Line and column are always the function of the consumed prefix.
    ghost predicate Valid()
      reads this
    {
      index <= |buf| && Pos() == Advanced(START, buf[..index])
    }

    function Pos(): Position
      reads this
    {
      Position(currentLine, currentColumn)
    }

    ghost function Rest(): string
      reads this
      requires index <= |buf|
    {
      buf[index..]
    }

    method Forward() returns (c: char)
      requires Valid() && index < |buf|
      modifies this`index, this`currentLine, this`currentColumn
      ensures Valid() && index == old(index) + 1 && c == buf[old(index)]
    {
      c := buf[index];
      assert buf[..index + 1][..index] == buf[..index];
      index := index + 1;
      if c == '\r' || c == '\n' {
        currentLine := currentLine + 1;
        currentColumn := 1;
      } else {
        currentColumn := currentColumn + 1;
      }
    }

    method Push(t: Token, columnStart: nat)
      modifies this`tokens
      ensures tokens == old(tokens) + [LexToken(t, currentLine, currentLine, columnStart, currentColumn)]
    {
      tokens := tokens + [LexToken(t, currentLine, currentLine, columnStart, currentColumn)];
    }

    // A line comment, up to its line break.
    method SkipLine()
      requires Valid() && index < |buf|
      modifies this`index, this`currentLine, this`currentColumn
      ensures Valid() && index == old(index) + Find(old(Rest()), '\n')
    {
      while index < |buf| && buf[index] != '\n'
        invariant Valid() && old(index) <= index
        invariant forall i :: old(index) <= i < index ==> buf[i] != '\n'
      {
        var _ := Forward();
      }
      FoundAt(old(Rest()), '\n', index - old(index));
    }

    // A block comment; false where the lexer runs out of characters.
    method SkipComment() returns (ok: bool)
      requires Valid() && |Rest()| >= 2
      modifies this`index, this`currentLine, this`currentColumn
      ensures Valid()
      ensures ok <==> FindClose(old(Rest())[2..]) < |old(Rest())| - 2
      ensures ok ==> index == old(index) + FindClose(old(Rest())[2..]) + 4
    {
      var _ := Forward();
      var _ := Forward();
      assert Rest() == old(Rest())[2..];
      while index + 1 < |buf| && (buf[index] != '*' || buf[index + 1] != '/')
        invariant Valid() && old(index) + 2 <= index
        invariant FindClose(old(Rest())[2..]) == index - old(index) - 2 + FindClose(Rest())
      {
        assert Rest()[1..] == buf[index + 1..];
        var _ := Forward();
      }
      if index + 1 >= |buf| {
        return false;
      }
      var _ := Forward();
      var _ := Forward();
      ok := true;
    }

    method LexString() returns (ok: bool)
      requires Valid() && index < |buf|
      modifies this
      ensures Valid()
      ensures var s := old(Rest());
        var n := Find(s[1..], s[0]);
        && (ok <==> n < |s| - 1)
        && (ok ==> index == old(index) + n + 2)
        && (ok ==> tokens == old(tokens) + [Placed(Token(TString, s[1..n + 1]), old(Pos()), Pos())])
    {
      hide Find, Advanced;
      ghost var s := old(Rest());
      var columnStart := currentColumn;
      var quote := Forward();
      var strbuf := "";
      assert Rest() == s[1..];
      while index < |buf| && buf[index] != quote
        invariant Valid() && old(index) < index && tokens == old(tokens)
        invariant strbuf == s[1..index - old(index)]
        invariant Find(s[1..], quote) == |strbuf| + Find(Rest(), quote)
      {
        assert Rest()[1..] == buf[index + 1..];
        FindStep(Rest(), quote);
        var c := Forward();
        strbuf := strbuf + [c];
      }
      if index >= |buf| {
        return false;
      }
      var _ := Forward();
      Push(Token(TString, strbuf), columnStart);
      ok := true;
    }

    lemma FindStep(s: string, c: char)
      requires s != [] && s[0] != c
      ensures Find(s, c) == 1 + Find(s[1..], c)
    {
    }

    method LexNumber()
      requires Valid() && index < |buf|
      modifies this
      ensures Valid()
      ensures var s := old(Rest());
        var n := Run(s, Decimal.IsDigit);
        && index == old(index) + n
        && tokens == old(tokens) + [Placed(Token(TInt, s[..n]), old(Pos()), Pos())]
    {
      var columnStart := currentColumn;
      var numbuf := "";
      ghost var s := old(Rest());
      while index < |buf| && Decimal.IsDigit(buf[index])
        invariant Valid() && old(index) <= index && tokens == old(tokens)
        invariant numbuf == s[..index - old(index)]
        invariant forall i :: old(index) <= i < index ==> Decimal.IsDigit(buf[i])
      {
        var c := Forward();
        numbuf := numbuf + [c];
      }
      RunsTo(s, Decimal.IsDigit, index - old(index));
      Push(Token(TInt, numbuf), columnStart);
    }

    method LexWord()
      requires Valid() && index < |buf|
      modifies this
      ensures Valid()
      ensures var s := old(Rest());
        var n := Run(s, IsNameChar);
        && index == old(index) + n
        && tokens == old(tokens) + [Placed(Token(WordType(s[..n]), s[..n]), old(Pos()), Pos())]
    {
      hide WordType;
      var columnStart := currentColumn;
      var identifier := "";
      ghost var s := old(Rest());
      while index < |buf| && IsNameChar(buf[index])
        invariant Valid() && old(index) <= index && tokens == old(tokens)
        invariant identifier == s[..index - old(index)]
        invariant forall i :: old(index) <= i < index ==> IsNameChar(buf[i])
      {
        var c := Forward();
        identifier := identifier + [c];
      }
      RunsTo(s, IsNameChar, index - old(index));
      Push(Token(WordType(identifier), identifier), columnStart);
    }

    // lex_multichar_operators; nothing happens when no such operator follows.
    method LexLongOperator() returns (found: bool)
      requires Valid() && index < |buf|
      modifies this
      ensures Valid()
      ensures var op := LongOperator(old(Rest()));
        && (found <==> op != "")
        && index == old(index) + |op|
        && (!found ==> tokens == old(tokens) && Pos() == old(Pos()))
        && (found ==> tokens == old(tokens) + [Placed(Token(TOperator, op), old(Pos()), Pos())])
    {
      var columnStart := currentColumn;
      var value := LongOperator(buf[index..]);
      LongOperatorFits(buf[index..]);
      for i := 0 to |value|
        invariant Valid() && index == old(index) + i && tokens == old(tokens)
        invariant i == 0 ==> Pos() == old(Pos())
      {
        var _ := Forward();
      }
      found := value != "";
      if found {
        Push(Token(TOperator, value), columnStart);
      }
    }

    lemma LongOperatorFits(s: string)
      ensures |LongOperator(s)| <= |s|
    {
    }

    lemma FoundAt(s: string, c: char, n: nat)
      requires n <= |s| && (forall i :: 0 <= i < n ==> s[i] != c) && (n < |s| ==> s[n] == c)
      ensures Find(s, c) == n
    {
    }

    lemma RunsTo(s: string, p: char -> bool, n: nat)
      requires n <= |s| && (forall i :: 0 <= i < n ==> p(s[i])) && (n < |s| ==> !p(s[n]))
      ensures Run(s, p) == n
    {
    }

    // One round of the loop in lex_analyze.
    method Round() returns (error: LexResult)
      requires Valid() && index < |buf|
      modifies this
      ensures Valid()
      ensures match Next(old(Rest()))
        case Unreadable(e) => error == Failed(e)
        case Blank(n) => error == Tokenized([]) && index == old(index) + n && tokens == old(tokens)
        case Lexed(t, n) =>
          error == Tokenized([]) && index == old(index) + n && tokens == old(tokens) + [Placed(t, old(Pos()), Pos())]
    {
      hide LongOperator, Find, Run, FindClose, Advanced, WordType;
      error := Tokenized([]);
      var c := buf[index];
      if index + 1 < |buf| && c == '/' && buf[index + 1] == '/' {
        SkipLine();
        return;
      }
      if index + 1 < |buf| && c == '/' && buf[index + 1] == '*' {
        var ok := SkipComment();
        return if ok then Tokenized([]) else Failed(NoCharacter);
      }
      if IsSpace(c) {
        var _ := Forward();
        return;
      }
      var found := LexLongOperator();
      if found {
        return;
      }
      if CharToken(c) != TEof {
        var columnStart := currentColumn;
        var _ := Forward();
        assert old(Rest())[..1] == [c];
        Push(Token(CharToken(c), [c]), columnStart);
        return;
      }
      if c == '"' || c == '\'' {
        var ok := LexString();
        return if ok then Tokenized([]) else Failed(UnterminatedString);
      }
      if Decimal.IsDigit(c) {
        LexNumber();
      } else if IsAlpha(c) || c == '_' {
        LexWord();
      } else {
        error := Failed(UnknownToken(c));
      }
    }

    method Analyze() returns (r: LexResult)
      requires Valid() && index == 0 && tokens == []
      modifies this
      ensures Valid() && r == Lex(buf, START)
    {
      hide Next, Advanced;
      assert Rest() == buf;
      PrependNothing(Lex(buf, START));
      NoAdvance();
      while index < |buf|
        invariant Valid()
        invariant Lex(buf, START) == Prepend(tokens, Lex(Rest(), Pos()))
        decreases |buf| - index
      {
        ghost var i, pos, s, ts := index, Pos(), Rest(), tokens;
        var error := Round();
        if error.Failed? {
          return error;
        }
        ghost var n := index - i;
        assert s[n..] == Rest() && s[..n] == buf[i..index];
        assert buf[..index] == buf[..i] + s[..n];
        AdvancedTwice(START, buf[..i], s[..n]);
        if Next(s).Lexed? {
          PrependTwice(ts, [Placed(Next(s).token, pos, Pos())], Lex(Rest(), Pos()));
        }
      }
      var end := Placed(Printer.Symbol(TEof), Pos(), Pos());
      tokens := tokens + [end];
      r := Tokenized(tokens);
    }

    lemma NoAdvance()
      ensures Advanced(START, "") == START
    {
    }

    lemma PrependNothing(r: LexResult)
      ensures Prepend([], r) == r
    {
      if r.Tokenized? {
        assert [] + r.tokens == r.tokens;
      }
    }

    lemma PrependTwice(a: seq<LexToken>, b: seq<LexToken>, r: LexResult)
      ensures Prepend(a, Prepend(b, r)) == Prepend(a + b, r)
    {
      if r.Tokenized? {
        assert a + (b + r.tokens) == a + b + r.tokens;
      }
    }
  }
}
