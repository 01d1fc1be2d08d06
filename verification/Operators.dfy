/** What the operators of src/eval.c satisfy, whatever the operands. */
module Operators {
  import opened Ast
  import opened Eval
  import Decimal

  function Abs(i: int): nat { if i < 0 then -i else i }

  function Yes(op: BinOp, a: Val, b: Val): bool { BinaryOp(op, a, b) == Done(VBool(true)) }

  predicate IsRemainder(a: int, b: int, r: int)
    requires b != 0
  {
    Abs(r) < Abs(b) && (r == 0 || (r < 0 <==> a < 0)) && (a - r) % b == 0
  }

  // The remainder is smaller than the divisor and has the sign of the dividend, so that the
  // quotient that goes with it is rounded towards zero; no other number is so.
  lemma RemainderTruncates(a: int, b: int, r: int)
    requires b != 0
    ensures IsRemainder(a, b, r) <==> r == Remainder(a, b)
  {
    RemainderIs(a, b);
    if IsRemainder(a, b, r) {
      OnlyRemainder(a, b, r);
    }
  }

  lemma RemainderIs(a: int, b: int)
    requires b != 0
    ensures IsRemainder(a, b, Remainder(a, b))
  {
    var c := Abs(a);
    var q, m := c / b, c % b;
    Euclid(c, b);
    if a >= 0 {
      MultipleOf(b, q);
      assert a - Remainder(a, b) == b * q;
    } else {
      Negated(b, q);
      MultipleOf(b, -q);
      assert a - Remainder(a, b) == b * -q;
    }
  }

  lemma Euclid(c: int, b: int)
    requires b != 0
    ensures c == b * (c / b) + c % b && 0 <= c % b < Abs(b)
  {
  }

  lemma OnlyRemainder(a: int, b: int, r: int)
    requires b != 0 && IsRemainder(a, b, r)
    ensures r == Remainder(a, b)
  {
    var c, q := Abs(a), (a - r) / b;
    Euclid(c, b);
    Euclid(a - r, b);
    Negated(b, q);
    Unique(b, c / b, c % b, if a >= 0 then q else -q, Abs(r));
  }

  lemma Negated(b: int, q: int)
    ensures b * -q == -(b * q)
  {
  }

  lemma MultipleOf(b: int, q: int)
    requires b != 0
    ensures (b * q) % b == 0
  {
    Unique(b, (b * q) / b, (b * q) % b, q, 0);
  }

  lemma Unique(b: int, q: int, r: int, q': int, r': int)
    requires b * q + r == b * q' + r' && 0 <= r < Abs(b) && 0 <= r' < Abs(b)
    ensures r == r'
  {
    var d := q - q';
    assert b * d == b * q - b * q' == r' - r;
    if d != 0 {
      assert Abs(b * d) >= Abs(b) by { Grows(b, d); }
    }
  }

  lemma Grows(b: int, d: int)
    requires d != 0
    ensures Abs(b * d) >= Abs(b)
  {
    AtLeast(Abs(b), Abs(d));
    Negated(b, d);
    if b < 0 {
      Negated(d, b);
      Negated(-b, d);
    }
  }

  lemma {:induction false} AtLeast(b: nat, d: nat)
    requires d >= 1
    ensures b * d >= b
  {
    if d > 1 {
      AtLeast(b, d - 1);
      assert b * d == b * (d - 1) + b;
    }
  }

  // ----- integer arithmetic -----

  // Integer arithmetic is exact wherever the result has 64 bits, fails as division by zero
  // exactly there, and is never silently wrong.
  lemma IntegersAreExact(a: int, b: int)
    requires InRange(a) && InRange(b)
    ensures var sum := BinaryOp(Plus, VInt(a), VInt(b));
      && sum == BinaryOp(Plus, VInt(b), VInt(a))
      && (sum.Done? <==> InRange(a + b))
      && (sum.Done? ==> BinaryOp(Minus, sum.value, VInt(b)) == Done(VInt(a)))
    ensures BinaryOp(Modulus, VInt(a), VInt(b)) == Failed(DivisionByZero) <==> b == 0
    ensures BinaryOp(Modulus, VInt(a), VInt(b)).Done? ==> InRange(BinaryOp(Modulus, VInt(a), VInt(b)).value.i)
  {
    if b != 0 {
      RemainderIs(a, b);
    }
  }

  // Adding nothing changes nothing, and a step in one operand is a step in the sum.
  lemma SumsStep(a: int, b: int)
    requires InRange(a) && InRange(b)
    ensures BinaryOp(Plus, VInt(a), VInt(0)) == Done(VInt(a))
    ensures var sum := BinaryOp(Plus, VInt(a), VInt(b));
      && (sum.Done? ==> sum.value.VInt?)
      && (sum.Done? && InRange(b + 1) ==>
            BinaryOp(Plus, VInt(a), VInt(b + 1))
            == if InRange(sum.value.i + 1) then Done(VInt(sum.value.i + 1)) else Failed(Undefined))
  {
  }

  // A difference is what is missing to the first operand; if nothing of 64 bits is, it is undefined.
  lemma DifferencesUndoSums(a: int, b: int, d: int)
    requires InRange(a) && InRange(b)
    ensures BinaryOp(Minus, VInt(a), VInt(b)) == Done(VInt(d))
       <==> InRange(d) && BinaryOp(Plus, VInt(d), VInt(b)) == Done(VInt(a))
    ensures !InRange(a - b) ==> BinaryOp(Minus, VInt(a), VInt(b)) == Failed(Undefined)
  {
  }

  // 0 with a added or subtracted n times.
  function Repeated(op: BinOp, a: int, n: nat): Outcome<Val> {
    if n == 0 then Done(VInt(0))
    else
      var r := Repeated(op, a, n - 1);
      if r.Done? then BinaryOp(op, r.value, VInt(a)) else r
  }

  // The product of any two integers is the one repeatedly added, or subtracted as often as the
  // other is negative; it is undefined exactly where the sum is.
  lemma ProductsAreRepeatedSums(a: int, b: int)
    requires InRange(a) && InRange(b)
    ensures BinaryOp(Times, VInt(a), VInt(b)) == if b >= 0 then Repeated(Plus, a, b) else Repeated(Minus, a, -b)
    ensures BinaryOp(Times, VInt(a), VInt(b)) == BinaryOp(Times, VInt(b), VInt(a))
    ensures BinaryOp(Times, VInt(a), VInt(b)).Done? <==> InRange(a * b)
  {
    if b >= 0 {
      RepeatedSums(Plus, a, b);
    } else {
      RepeatedSums(Minus, a, -b);
      Negated(a, -b);
    }
  }

  lemma {:induction false} RepeatedSums(op: BinOp, a: int, n: nat)
    requires op.Plus? || op.Minus?
    ensures Repeated(op, a, n) == var p := if op.Plus? then a * n else -(a * n);
      if InRange(p) then Done(VInt(p)) else Failed(Undefined)
  {
    if n > 0 {
      RepeatedSums(op, a, n - 1);
      assert a * n == a * (n - 1) + a;
      AtLeast(Abs(a), n);
      SameSign(a, n - 1);
    }
  }

  lemma SameSign(a: int, n: nat)
    ensures a >= 0 ==> a * n >= 0
    ensures a <= 0 ==> a * n <= 0
  {
  }

  // A quotient is exact: it is kept as a ratio that equals the ratio of the operands.
  lemma QuotientsAreRatios(a: int, b: int)
    requires InRange(a) && InRange(b)
    ensures var q := BinaryOp(Divide, VInt(a), VInt(b));
      && (b == 0 <==> q == Failed(DivisionByZero))
      && (b != 0 ==> q.Done? && q.value.VFloat? && q.value.den != 0 && q.value.num * b == a * q.value.den)
  {
  }

  // A remainder is the truncating one, undefined only where the quotient has more than 64 bits.
  lemma RemaindersAre(a: int, b: int, r: int)
    requires InRange(a) && InRange(b)
    ensures BinaryOp(Modulus, VInt(a), VInt(b)) == Done(VInt(r))
       <==> b != 0 && !(a == Decimal.LLONG_MIN && b == -1) && IsRemainder(a, b, r)
  {
    if b != 0 {
      RemainderTruncates(a, b, r);
    }
  }

  // ----- strings -----

  // The text of a value, characterised without printing it: a number reads as that text, without
  // needless zeros.
  predicate IsTextOf(t: string, v: Val) {
    match v
    case VStr(s) => t == s
    case VInt(i) =>
      var digits := if i < 0 && t != "" && t[0] == '-' then t[1..] else t;
      && digits != "" && Decimal.AllDigits(digits) && (digits[0] == '0' ==> |digits| == 1)
      && Decimal.Value(digits) == Abs(i) && (i < 0 ==> digits != t)
    case VBool(b) => t == if b then "true" else "false"
    case VNull => t == "null"
    case _ => false
  }

  predicate HasText(v: Val) { !v.VFloat? && !v.VBuiltin? }

  lemma {:induction false} NoLeadingZero(n: nat)
    ensures var t := Decimal.Unsigned(n);
      t != "" && (t[0] == '0' ==> |t| == 1 && n == 0)
  {
    if n >= 10 {
      NoLeadingZero(n / 10);
    }
  }

  lemma TextIs(v: Val)
    ensures HasText(v) <==> Stringify(v).Some?
    ensures HasText(v) ==> IsTextOf(Stringify(v).value, v)
  {
    if v.VInt? {
      Decimal.ValueOfUnsigned(Abs(v.i));
      NoLeadingZero(Abs(v.i));
      FirstDigit(Abs(v.i));
      assert v.i < 0 ==> Decimal.Signed(v.i)[1..] == Decimal.Unsigned(Abs(v.i));
    }
  }

  // A sum with a string is the text of the left operand and that of the right one behind it.
  lemma SumsOfTexts(a: Val, b: Val)
    requires a.VStr? || b.VStr?
    ensures var sum := BinaryOp(Plus, a, b);
      && (sum.Done? <==> HasText(a) && HasText(b))
      && (!sum.Done? ==> sum == Failed(BadOperands))
      && (sum.Done? ==>
            && sum.value.VStr?
            && exists k :: 0 <= k <= |sum.value.s| && IsTextOf(sum.value.s[..k], a) && IsTextOf(sum.value.s[k..], b))
  {
    TextIs(a);
    TextIs(b);
    if HasText(a) && HasText(b) {
      var l, r := Stringify(a).value, Stringify(b).value;
      assert (l + r)[..|l|] == l && (l + r)[|l|..] == r;
    }
  }

  // ----- operands that do not fit -----

  // Which operands each operator takes, and the error for the others.
  lemma OperandsAccepted(op: BinOp, a: Val, b: Val)
    requires !(a.VInt? && b.VInt?)
    ensures a.VStr? || b.VStr? ==>
      (BinaryOp(op, a, b).Done? <==> (op.Plus? || IsEquality(op)) && HasText(a) && HasText(b))
    ensures !a.VStr? && !b.VStr? ==> (BinaryOp(op, a, b).Done? <==> IsComparison(op))
    ensures var error := if (!a.VStr? && !b.VStr?) || op.Plus? then BadOperands
                         else if IsEquality(op) then Undefined
                         else BadOperator;
      BinaryOp(op, a, b).Done? || BinaryOp(op, a, b) == Failed(error)
  {
    TextIs(a);
    TextIs(b);
  }

  // ----- comparisons -----

  predicate OfOneType(a: Val, b: Val) {
    && (a.VInt? <==> b.VInt?) && (a.VFloat? <==> b.VFloat?) && (a.VStr? <==> b.VStr?)
    && (a.VBool? <==> b.VBool?) && (a.VNull? <==> b.VNull?) && (a.VBuiltin? <==> b.VBuiltin?)
  }

  // Integers compare as integers, and any other value that is no string as one of them.
  lemma ComparedAsIntegers(op: BinOp, a: Val, b: Val, i: int, j: int)
    requires !a.VStr? && !b.VStr?
    ensures Yes(Lt, VInt(i), VInt(j)) <==> i < j
    ensures Yes(Eq, VNull, VInt(0)) && Yes(Eq, VBool(false), VInt(0)) && Yes(Eq, VBool(true), VInt(1))
    ensures a.VFloat? || a.VBuiltin? ==> Yes(Eq, a, VInt(1))
    ensures op in {Lt, Gt, Le, Ge, Eq, Ne} && Yes(Eq, a, VInt(i)) && Yes(Eq, b, VInt(j)) ==>
              BinaryOp(op, a, b) == BinaryOp(op, VInt(i), VInt(j))
  {
  }

  // Between values that are no strings the comparisons are one total order: one of <, == and >
  // holds, and the others are their negations.
  lemma ComparisonsOrder(a: Val, b: Val)
    requires !a.VStr? && !b.VStr?
    ensures (Yes(Lt, a, b) || Yes(Eq, a, b) || Yes(Gt, a, b)) && !(Yes(Lt, a, b) && Yes(Gt, a, b))
    ensures Yes(Eq, a, b) <==> Yes(Le, a, b) && Yes(Ge, a, b)
    ensures Yes(Ge, a, b) <==> !Yes(Lt, a, b)
    ensures Yes(Le, a, b) <==> !Yes(Gt, a, b)
    ensures Yes(Lt, a, b) <==> Yes(Gt, b, a)
  {
  }

  // The order is transitive on all values, because it is false as soon as a string is compared.
  lemma OrderTransitive(a: Val, b: Val, c: Val)
    ensures Yes(Le, a, b) && Yes(Le, b, c) ==> Yes(Le, a, c)
    ensures Yes(Lt, a, b) && Yes(Lt, b, c) ==> Yes(Lt, a, c)
  {
  }

  // A number is never printed as a word.
  lemma NumbersAreNoWords(i: int)
    ensures Decimal.Signed(i) != "" && (Decimal.IsDigit(Decimal.Signed(i)[0]) || Decimal.Signed(i)[0] == '-')
    ensures Decimal.Signed(i) != "true" && Decimal.Signed(i) != "false" && Decimal.Signed(i) != "null"
  {
    FirstDigit(Abs(i));
    assert "true"[0] == 't' && "false"[0] == 'f' && "null"[0] == 'n';
  }

  lemma {:induction false} FirstDigit(n: nat)
    ensures Decimal.Unsigned(n) != "" && Decimal.IsDigit(Decimal.Unsigned(n)[0])
  {
    if n >= 10 {
      FirstDigit(n / 10);
    }
  }

  lemma SignedInjective(i: int, j: int)
    ensures Decimal.Signed(i) == Decimal.Signed(j) ==> i == j
  {
    FirstDigit(Abs(i));
    FirstDigit(Abs(j));
    if Decimal.Signed(i) == Decimal.Signed(j) {
      assert i < 0 <==> j < 0;
      assert i < 0 ==> Decimal.Signed(i)[1..] == Decimal.Signed(j)[1..];
      assert Decimal.Unsigned(Abs(i)) == Decimal.Unsigned(Abs(j));
      Decimal.UnsignedInjective(Abs(i), Abs(j));
    }
  }

  // Values that are no strings and have a text have it for themselves.
  lemma TextsDetermine(a: Val, b: Val)
    requires !a.VStr? && !b.VStr? && Stringify(a).Some? && Stringify(b).Some?
    ensures Stringify(a) == Stringify(b) <==> a == b
  {
    if a.VInt? {
      NumbersAreNoWords(a.i);
    }
    if b.VInt? {
      NumbersAreNoWords(b.i);
    }
    if a.VInt? && b.VInt? {
      SignedInjective(a.i, b.i);
    }
    assert |"true"| == |"null"| && "true"[0] != "null"[0] && |"false"| == 5;
  }

  // A string equals what is printed like it, and other values are equal as numbers.
  lemma EqualityIs(a: Val, b: Val)
    ensures Yes(Eq, a, b) <==>
            if a.VStr? || b.VStr? then Stringify(a).Some? && Stringify(a) == Stringify(b) else ToInt(a) == ToInt(b)
  {
  }

  // Two equalities compose exactly when the value between them is a string, or both ends are
  // strings or neither is, or the two that are no strings are of one type.
  lemma EqualityTransitive(a: Val, b: Val, c: Val)
    requires Yes(Eq, a, b) && Yes(Eq, b, c)
    ensures Yes(Eq, a, c) <==> b.VStr? || (a.VStr? <==> c.VStr?) || (if a.VStr? then OfOneType(b, c) else OfOneType(a, b))
  {
    hide BinaryOp, Stringify;
    EqualityIs(a, b);
    EqualityIs(b, c);
    EqualityIs(a, c);
    Composed(a, b, c);
  }

  lemma Composed(a: Val, b: Val, c: Val)
    requires Yes(Eq, a, b) && Yes(Eq, b, c)
    ensures b.VStr? && !a.VStr? && !c.VStr? ==> a == c
    ensures a.VStr? && !b.VStr? && !c.VStr? ==> (Stringify(a) == Stringify(c) <==> OfOneType(b, c))
    ensures !a.VStr? && !b.VStr? && c.VStr? ==> (Stringify(a) == Stringify(c) && Stringify(a).Some? <==> OfOneType(a, b))
  {
    EqualityIs(a, b);
    EqualityIs(b, c);
    if b.VStr? && !a.VStr? && !c.VStr? {
      TextsDetermine(a, c);
    } else if a.VStr? && !b.VStr? && !c.VStr? && Stringify(c).Some? {
      TextsDetermine(b, c);
      OneType(b, c);
    } else if c.VStr? && !a.VStr? && !b.VStr? && Stringify(a).Some? {
      TextsDetermine(a, b);
      OneType(a, b);
    }
  }

  lemma OneType(a: Val, b: Val)
    requires !a.VStr? && !b.VStr? && Stringify(a).Some? && Stringify(b).Some? && ToInt(a) == ToInt(b)
    ensures a == b <==> OfOneType(a, b)
  {
  }

  // "1" == 1 and 1 == true, but not "1" == true.
  lemma EqualityNotTransitive()
    ensures Yes(Eq, VStr("1"), VInt(1)) && Yes(Eq, VInt(1), VBool(true)) && !Yes(Eq, VStr("1"), VBool(true))
  {
    assert Decimal.Signed(1) == "1";
    assert "1"[0] != "true"[0];
  }

  // Strict equality is equality between operands of one type. Strict inequality is its negation
  // exactly between operands of one type: across types both are false.
  lemma StrictEquality(a: Val, b: Val)
    requires BinaryOp(Eq, a, b).Done?
    ensures Yes(EqS, a, b) <==> Yes(Eq, a, b) && OfOneType(a, b)
    ensures Yes(Ne, a, b) <==> !Yes(Eq, a, b)
    ensures (Yes(NeS, a, b) <==> !Yes(EqS, a, b)) <==> OfOneType(a, b)
  {
  }
}
