/**
  Assembly trees (src/asm.c), the lines they print as, and the assembler's reading of the
  quoted data strings.
*/
module Asm {
  import opened Ast

  datatype Reg = RAX | RCX | RBX | RDX | RDI | RSI | RSP | RBP | R8 | R9

  // The global symbols of the emitted files.
  datatype Symbol =
    | Start        // _start
    | Main         // main
    | Exit         // exit
    | CreateInt    // libblaze_val_create_intval
    | CreateStr    // libblaze_val_create_strval
    | PrintLine    // libblaze_fn_println
    | FreeVal      // libblaze_val_free

  datatype Operand =
    | Imm(n: int)
    | ImmLabel(dataLabel: string)
    | Register(reg: Reg)
    | Offset(offset: int, base: Reg)

  // All instructions carry the quadword suffix.
  datatype Inst =
    | Mov(src: Operand, dst: Operand)
    | Add(src: Operand, dst: Operand)
    | Push(operand: Operand)
    | Pop(operand: Operand)
    | CallTo(target: Symbol)
    | Ret

  datatype Node =
    | Instruction(inst: Inst)
    | InstArray(children: seq<Node>)
    | Root(nodes: seq<Node>)
    | Label(symbol: Symbol)
    | Globl(exported: Symbol)

  // asm_print: the leaves in order.
  function Lines(node: Node): seq<Node>
    decreases node, 0
  {
    match node
    case InstArray(children) => LinesOf(children)
    case Root(nodes) => LinesOf(nodes)
    case _ => [node]
  }

  function LinesOf(nodes: seq<Node>): seq<Node>
    decreases nodes, 1
  {
    if nodes == [] then [] else LinesOf(nodes[..|nodes| - 1]) + Lines(nodes[|nodes| - 1])
  }

  function Instructions(code: seq<Inst>): seq<Node> {
    seq(|code|, i requires 0 <= i < |code| => Instruction(code[i]))
  }

  // One more child prints as its lines after the lines of the earlier ones.
  lemma LinesOfPush(nodes: seq<Node>, node: Node)
    ensures LinesOf(nodes + [node]) == LinesOf(nodes) + Lines(node)
  {
    assert (nodes + [node])[..|nodes + [node]| - 1] == nodes;
  }

  // ----- data strings -----

  function EscapedChar(c: char): string { if c == '"' then ['\\', '"'] else [c] }

  function Escaped(s: string): string {
    if s == [] then [] else EscapedChar(s[0]) + Escaped(s[1..])
  }

  function Quoted(s: string): string { ['"'] + Escaped(s) + ['"'] }

  lemma {:induction false} EscapedAppend(a: string, b: string)
    ensures Escaped(a + b) == Escaped(a) + Escaped(b)
  {
    if a == [] {
      assert a + b == b;
    } else {
      hide EscapedChar;
      EscapedAppend(a[1..], b);
      assert (a + b)[1..] == a[1..] + b && (a + b)[0] == a[0];
      Associate(EscapedChar(a[0]), Escaped(a[1..]), Escaped(b));
    }
  }

  lemma Associate(a: string, b: string, c: string)
    ensures a + (b + c) == a + b + c
  {
  }

  // The string building loop of x86_64_compile_expr.
  method Quote(s: string) returns (q: string)
    ensures q == Quoted(s)
  {
    q := ['"'];
    for i := 0 to |s|
      invariant q == ['"'] + Escaped(s[..i])
    {
      EscapedAppend(s[..i], [s[i]]);
      assert s[..i + 1] == s[..i] + [s[i]];
      if s[i] == '"' {
        q := q + ['\\'];
      }
      q := q + [s[i]];
    }
    assert s[..|s|] == s;
    q := q + ['"'];
  }

  // The digits of an octal escape; as reads 8 and 9 there, too.
  predicate OctalDigit(c: char) { '0' <= c <= '9' }

  predicate HexDigit(c: char) { '0' <= c <= '9' || 'a' <= c <= 'f' || 'A' <= c <= 'F' }

  function HexValue(c: char): nat
    requires HexDigit(c)
  {
    if c <= '9' then c as int - '0' as int
    else if c >= 'a' then c as int - 'a' as int + 10
    else c as int - 'A' as int + 10
  }

  // The length of the digit run at the start of q, at most max.
  function Run(q: string, digit: char -> bool, max: nat): (n: nat)
    ensures n <= |q| && forall i :: 0 <= i < n ==> digit(q[i])
  {
    if q == [] || max == 0 || !digit(q[0]) then 0 else 1 + Run(q[1..], digit, max - 1)
  }

  function CodeOf(digits: string, base: nat): nat
    requires forall i :: 0 <= i < |digits| ==> HexDigit(digits[i])
  {
    if digits == [] then 0
    else (CodeOf(digits[..|digits| - 1], base) * base + HexValue(digits[|digits| - 1])) % 256
  }

  // The escape sequences of GNU as (Using as, section 3.6.1.1 "Strings"): what the text after a
  // backslash stands for and how many characters it takes. A character that starts no escape
  // stands for itself; None is the end of the text.
  function Escape(q: string): (r: Option<(char, nat)>)
    ensures r.Some? ==> 0 < r.value.1 <= |q|
  {
    if q == [] then None
    else if q[0] == '"' || q[0] == '\\' then Some((q[0], 1))
    else if q[0] == 'b' then Some(('\U{08}', 1))
    else if q[0] == 'f' then Some(('\U{0C}', 1))
    else if q[0] == 'n' then Some(('\n', 1))
    else if q[0] == 'r' then Some(('\r', 1))
    else if q[0] == 't' then Some(('\t', 1))
    else if OctalDigit(q[0]) then
      var n := Run(q, OctalDigit, 3);
      Some((CodeOf(q[..n], 8) as char, n))
    else if q[0] == 'x' || q[0] == 'X' then
      var n := Run(q[1..], HexDigit, |q|);
      Some((CodeOf(q[1..n + 1], 16) as char, n + 1))
    else Some((q[0], 1))
  }

  // Reads the operand of a .string directive after its opening quote.
  function ReadRest(q: string): Option<string>
    decreases |q|
  {
    if q == [] then None
    else if q[0] == '"' then (if |q| == 1 then Some([]) else None)
    else if q[0] == '\\' then
      var e := Escape(q[1..]);
      if e.None? then None
      else
        var rest := ReadRest(q[1 + e.value.1..]);
        if rest.None? then None else Some([e.value.0] + rest.value)
    else
      var rest := ReadRest(q[1..]);
      if rest.None? then None else Some([q[0]] + rest.value)
  }

  function ReadString(param: string): Option<string> {
    if param == [] || param[0] != '"' then None else ReadRest(param[1..])
  }

  // ----- quoting and reading back -----

  predicate NoBackslash(s: string) { forall i :: 0 <= i < |s| ==> s[i] != '\\' }

  // The text a data string has after its opening quote.
  function Tail(s: string): string { Escaped(s) + ['"'] }

  lemma {:induction false} ReadsBack(s: string)
    requires NoBackslash(s)
    ensures ReadRest(Tail(s)) == Some(s)
  {
    if s == [] {
    } else {
      ReadsBack(s[1..]);
      var head := EscapedChar(s[0]);
      assert Tail(s) == head + Tail(s[1..]);
      assert Tail(s)[|head|..] == Tail(s[1..]);
      assert [s[0]] + s[1..] == s;
    }
  }

  // Characters other than the quote are their own escapes.
  lemma {:induction false} PlainPrefix(t: string, n: nat)
    requires n <= |t| && forall i :: 0 <= i < n ==> t[i] != '"'
    ensures n <= |Tail(t)| && Tail(t)[..n] == t[..n] && Tail(t)[n..] == Tail(t[n..])
  {
    assert t == t[..n] + t[n..];
    EscapedAppend(t[..n], t[n..]);
    PlainEscaped(t[..n]);
  }

  lemma {:induction false} PlainEscaped(t: string)
    requires forall i :: 0 <= i < |t| ==> t[i] != '"'
    ensures Escaped(t) == t
  {
    if t != [] {
      PlainEscaped(t[1..]);
    }
  }

  // A digit run of an escaped text is a run of the text itself: it stops before any quote.
  lemma {:induction false} RunOfTail(t: string, digit: char -> bool, max: nat)
    requires !digit('"') && !digit('\\')
    ensures Run(Tail(t), digit, max) <= |t|
    ensures forall i :: 0 <= i < Run(Tail(t), digit, max) ==> t[i] != '"'
    decreases |t|
  {
    var n := Run(Tail(t), digit, max);
    if t == [] {
    } else if n > 0 {
      assert Tail(t)[1..] == Tail(t[1..]);
      RunOfTail(t[1..], digit, max - 1);
      forall i | 0 <= i < n
        ensures i < |t| && t[i] != '"'
      {
        if i > 0 {
          assert t[i] == t[1..][i - 1];
        }
      }
    }
  }

  // An escape in the tail of t takes whole characters of t, or the tail is no string any more.
  lemma EscapeConsumes(t: string)
    ensures var e := Escape(Tail(t));
      e.Some? ==> ReadRest(Tail(t)[e.value.1..]).None? || (e.value.1 <= |t| && Tail(t)[e.value.1..] == Tail(t[e.value.1..]))
  {
    var q := Tail(t);
    var e := Escape(q);
    if t == [] {
      assert q[1..] == [];
    } else if t[0] == '"' {
      // the quote of the escape ends the string before the text does
      assert q == ['\\', '"'] + Tail(t[1..]);
      assert q[1..][0] == '"' && |q[1..]| > 1;
    } else if e.Some? {
      RunOfTail(t, OctalDigit, 3);
      assert q[1..] == Tail(t[1..]);
      RunOfTail(t[1..], HexDigit, |q|);
      var n := e.value.1;
      assert n <= |t|;
      forall i | 0 <= i < n
        ensures t[i] != '"'
      {
        if i > 0 {
          assert t[i] == t[1..][i - 1];
        }
      }
      PlainPrefix(t, n);
    }
  }

  // What a C function sees of a string: the text up to the first NUL.
  function CString(s: string): (r: string)
    ensures |r| <= |s| && (r == s <==> '\0' !in s) && (r != s ==> |r| < |s|)
  {
    if s == [] || s[0] == '\0' then [] else [s[0]] + CString(s[1..])
  }

  // What println puts behind an argument.
  predicate Separator(c: char) { c == ' ' || c == '\n' }

  lemma TailStep(s: string)
    requires s != []
    ensures Tail(s) == EscapedChar(s[0]) + Tail(s[1..])
    ensures Tail(s)[|EscapedChar(s[0])|..] == Tail(s[1..])
  {
    hide EscapedChar;
    Associate(EscapedChar(s[0]), Escaped(s[1..]), ['"']);
  }

  lemma PlainStep(s: string)
    requires s != [] && s[0] != '\\' && ReadRest(Tail(s)).Some?
    ensures ReadRest(Tail(s[1..])).Some? && ReadRest(Tail(s)).value == [s[0]] + ReadRest(Tail(s[1..])).value
  {
    TailStep(s);
    hide Tail;
  }

  lemma EscapeStep(s: string) returns (c: char, n: nat)
    requires s != [] && s[0] == '\\' && ReadRest(Tail(s)).Some?
    ensures 2 <= n <= |s| && ReadRest(Tail(s[n..])).Some?
    ensures ReadRest(Tail(s)).value == [c] + ReadRest(Tail(s[n..])).value
    ensures Separator(c) || forall i :: 0 <= i < n ==> !Separator(s[i])
  {
    hide Escape, Tail;
    var t := s[1..];
    TailStep(s);
    assert Tail(s)[0] == '\\' && Tail(s)[1..] == Tail(t);
    EscapeConsumes(t);
    EscapeHasNoSeparator(t);
    var e := Escape(Tail(t));
    c, n := e.value.0, 1 + e.value.1;
    assert Tail(s)[n..] == Tail(t)[n - 1..];
    assert s[n..] == t[n - 1..];
    assert forall i :: 0 < i < n ==> s[i] == t[i - 1];
  }

  // The first character the assembler reads from a quoted string, and what it takes of it.
  lemma ReadStep(s: string) returns (c: char, n: nat)
    requires s != [] && ReadRest(Tail(s)).Some?
    ensures 1 <= n <= |s| && ReadRest(Tail(s[n..])).Some?
    ensures ReadRest(Tail(s)).value == [c] + ReadRest(Tail(s[n..])).value
    ensures s[0] != '\\' ==> n == 1 && c == s[0]
    ensures s[0] == '\\' ==> n >= 2 && (Separator(c) || forall i :: 0 <= i < n ==> !Separator(s[i]))
  {
    hide ReadRest, Tail;
    if s[0] != '\\' {
      PlainStep(s);
      c, n := s[0], 1;
    } else {
      c, n := EscapeStep(s);
    }
  }

  lemma EscapeHasNoSeparator(t: string)
    ensures var e := Escape(Tail(t));
      e.Some? ==> Separator(e.value.0) || forall i :: 0 <= i < e.value.1 && i < |t| ==> !Separator(t[i])
  {
    var q := Tail(t);
    var e := Escape(q);
    if e.Some? && t != [] && t[0] != '"' && !Separator(e.value.0) {
      RunOfTail(t, OctalDigit, 3);
      assert q[1..] == Tail(t[1..]);
      RunOfTail(t[1..], HexDigit, |q|);
      forall i | 0 <= i < e.value.1 && i < |t|
        ensures !Separator(t[i])
      {
        NoQuoteBefore(t, i);
      }
    }
  }

  // A character of an escaped text, as long as no quote came before it.
  lemma NoQuoteBefore(t: string, i: nat)
    requires i < |t|
    ensures (forall j :: 0 <= j < i ==> t[j] != '"') ==> i < |Tail(t)| && (t[i] != '"' ==> Tail(t)[i] == t[i])
  {
    if forall j :: 0 <= j < i ==> t[j] != '"' {
      PlainPrefix(t, i);
      assert Tail(t)[i..] == Tail(t[i..]) && Tail(t)[i] == Tail(t)[i..][0];
    }
  }

  // Whatever the assembler reads from a quoted string with a backslash is shorter than it.
  lemma {:induction false} BackslashShortens(s: string)
    ensures ReadRest(Tail(s)).Some? ==> |ReadRest(Tail(s)).value| <= |s|
    ensures ReadRest(Tail(s)).Some? && !NoBackslash(s) ==> |ReadRest(Tail(s)).value| < |s|
    decreases |s|
  {
    hide ReadRest;
    if ReadRest(Tail(s)).Some? {
      if s == [] {
        NothingRead();
      } else {
        var c, n := ReadStep(s);
        BackslashShortens(s[n..]);
        assert n == 1 && !NoBackslash(s) ==> !NoBackslash(s[1..]);
      }
    }
  }

  lemma NothingRead()
    ensures ReadRest(Tail([])) == Some([])
  {
  }

  // What is read from rest, with a separator behind it, does not lie in rest shifted by some
  // characters of an escape.
  lemma {:induction false} Shifted(rest: string, e: string, sep: char)
    requires e != [] && Separator(sep) && forall i :: 0 <= i < |e| ==> !Separator(e[i])
    requires ReadRest(Tail(rest)).Some?
    ensures !(CString(ReadRest(Tail(rest)).value) + [sep] <= e + rest)
    decreases |rest|
  {
    hide ReadRest, Tail;
    var v := CString(ReadRest(Tail(rest)).value);
    assert (e + rest)[0] == e[0];
    if rest == [] {
      NothingRead();
    } else if v + [sep] <= e + rest && v != [] {
      var c, n := ReadStep(rest);
      var w := CString(ReadRest(Tail(rest[n..])).value);
      assert v == [c] + w && c == e[0];
      var e' := e[1..] + rest[..n];
      assert (e + rest)[1..] == e' + rest[n..];
      assert (v + [sep])[1..] == w + [sep];
      Shifted(rest[n..], e', sep);
    }
  }

  // A string that the assembler misreads shows: what a call prints for it, with the separator,
  // is not how the string starts.
  lemma {:induction false} MisreadingShows(s: string, sep: char)
    requires ReadRest(Tail(s)).Some? && !(NoBackslash(s) && '\0' !in s) && Separator(sep)
    ensures !(CString(ReadRest(Tail(s)).value) + [sep] <= s)
    decreases |s|
  {
    hide ReadRest, Tail;
    var v := CString(ReadRest(Tail(s)).value);
    var c, n := ReadStep(s);
    if v + [sep] <= s && v != [] {
      var w := CString(ReadRest(Tail(s[n..])).value);
      assert v == [c] + w && (v + [sep])[1..] == w + [sep];
      if s[0] == '\\' {
        assert s[1..] == s[1..n] + s[n..];
        Shifted(s[n..], s[1..n], sep);
      } else {
        assert c != '\0' && s[1..] == s[n..];
        MisreadingShows(s[1..], sep);
      }
    }
  }

  // The assembler reads the quoted data string back as the original exactly when the original
  // contains no backslash.
  lemma QuotingIsFaithful(s: string)
    ensures ReadString(Quoted(s)) == Some(s) <==> NoBackslash(s)
  {
    assert Quoted(s)[1..] == Tail(s);
    if NoBackslash(s) {
      ReadsBack(s);
    } else {
      BackslashShortens(s);
    }
  }
}
