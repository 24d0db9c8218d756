/** How tightly the operators of an #if line bind, and what they compute, read off the text of short lines. */
module IfPrecedence {
  import opened IfExpression
  import opened IfGrammar
  import opened IfTrees
  import IfRoundTrip

  /** The binary operators of C from the tightest to the loosest (section 6.5 of ISO/IEC 9899:1999). */
  function Precedence(): (rows: seq<set<string>>)
    ensures |rows| == 10
  {
    [{"*", "/", "%"}, {"+", "-"}, {"<<", ">>"}, {"<", "<=", ">", ">="}, {"==", "!="}, {"&"}, {"^"}, {"|"}, {"&&"}, {"||"}]
  }

  function OpOf(s: string): BinOp {
    if s == "*" then Mul else if s == "/" then Div else if s == "%" then Mod
    else if s == "+" then Add else if s == "-" then Sub
    else if s == "<<" then Shl else if s == ">>" then Shr
    else if s == "<" then Lt else if s == "<=" then Le else if s == ">" then Gt else if s == ">=" then Ge
    else if s == "==" then Eq else if s == "!=" then Ne
    else if s == "&" then BitAnd else if s == "^" then BitXor else if s == "|" then BitOr
    else if s == "&&" then And else Or
  }

  lemma {:induction false} RowLevel(s: string, i: nat)
    requires i < 10 && s in Precedence()[i]
    ensures Symbol(OpOf(s)) == s && Level(OpOf(s)) == i + 1
  {
    hide Symbol, Level;
    if i < 4 { TighterRow(s, i); } else { LooserRow(s, i); }
  }

  lemma {:induction false} TighterRow(s: string, i: nat)
    requires i < 4 && s in [{"*", "/", "%"}, {"+", "-"}, {"<<", ">>"}, {"<", "<=", ">", ">="}][i]
    ensures Symbol(OpOf(s)) == s && Level(OpOf(s)) == i + 1
  {
  }

  lemma {:induction false} LooserRow(s: string, i: nat)
    requires 4 <= i < 10 && s in [{"==", "!="}, {"&"}, {"^"}, {"|"}, {"&&"}, {"||"}][i - 4]
    ensures Symbol(OpOf(s)) == s && Level(OpOf(s)) == i + 1
  {
  }

  /** A number or a variable. */
  predicate Atom(t: Tree) {
    t.Literal? || (t.Symbolic? && IsPlainName(t.name))
  }

  function AtomText(t: Tree): string
    requires Atom(t)
  {
    if t.Symbolic? then t.name else if t.n == 0 then "0" else DecimalDigits(t.n)
  }

  lemma {:induction false} AtomSpelled(t: Tree, rest: string)
    requires Atom(t)
    ensures Fits(Spell(t)) && Complete(Spell(t)) && Strip(Spell(t)) == t && Rank(Spell(t)) == 0
    ensures Show(Spell(t), rest) == AtomText(t) + rest
  {
    hide Fits, Strip, DecimalDigits;
    LeafFits(t);
    if t.Literal? {
      if t.n == 0 { assert "" + ("0" + ("" + ("" + rest))) == "0" + rest; }
      else { assert "" + ("" + (DecimalDigits(t.n) + ("" + rest))) == DecimalDigits(t.n) + rest; }
    } else {
      assert "" + (t.name + rest) == t.name + rest;
    }
  }

  /** What a line is read as. */
  lemma {:induction false} Reads(e: Expr, text: string)
    requires Fits(e) && Complete(e) && Show(e, "") == text
    ensures ParseIf(Trees(), text) == Value(Strip(e), "")
    ensures forall w :: ParseIf(Longs(w), text) == match Meaning(Longs(w), Strip(e)) case None => Trap case Some(v) => Value(v, "")
  {
    hide ParseLevel, Show, Fits, Meaning, Strip, Complete, Trees, Longs;
    assert IsBlank("");
    LineMeansTree(Trees(), e, "");
    TreesMeanThemselves(Strip(e));
    forall w ensures ParseIf(Longs(w), text) == match Meaning(Longs(w), Strip(e)) case None => Trap case Some(v) => Value(v, "") {
      LineMeansTree(Longs(w), e, "");
    }
  }

  lemma {:induction false} BinaryText(l: Expr, op: BinOp, r: Expr, rest: string)
    ensures Show(Binary(l, "", op, r), rest) == Show(l, Symbol(op) + Show(r, rest))
  {
    assert "" + (Symbol(op) + Show(r, rest)) == Symbol(op) + Show(r, rest);
  }

  /** Two operators: the tighter one takes its operands first, and of two in one row the right one. */
  lemma {:induction false} TwoOperators(a: Tree, s1: string, b: Tree, s2: string, c: Tree, i: nat, j: nat)
    requires Atom(a) && Atom(b) && Atom(c) && i < 10 && j < 10 && s1 in Precedence()[i] && s2 in Precedence()[j]
    ensures ParseIf(Trees(), AtomText(a) + (s1 + (AtomText(b) + (s2 + AtomText(c))))) ==
            Value(if i < j then Infix(Infix(a, OpOf(s1), b), OpOf(s2), c) else Infix(a, OpOf(s1), Infix(b, OpOf(s2), c)), "")
  {
    hide Show, Fits, Complete, Strip, Spell, Symbol, Level, Precedence, OpOf, AtomText, Trees, ParseLevel;
    RowLevel(s1, i);
    RowLevel(s2, j);
    var x, y, z, op1, op2 := Spell(a), Spell(b), Spell(c), OpOf(s1), OpOf(s2);
    AtomSpelled(c, "");
    assert AtomText(c) + "" == AtomText(c);
    AtomSpelled(b, s2 + AtomText(c));
    AtomSpelled(a, s1 + (AtomText(b) + (s2 + AtomText(c))));
    if i < j {
      var e := Binary(Binary(x, "", op1, y), "", op2, z);
      BinaryText(Binary(x, "", op1, y), op2, z, "");
      BinaryText(x, op1, y, s2 + AtomText(c));
      BinaryFits(x, op1, y);
      RankIs(x, op1, y);
      BinaryFits(Binary(x, "", op1, y), op2, z);
      Reads(e, AtomText(a) + (s1 + (AtomText(b) + (s2 + AtomText(c)))));
    } else {
      var e := Binary(x, "", op1, Binary(y, "", op2, z));
      BinaryText(x, op1, Binary(y, "", op2, z), "");
      BinaryText(y, op2, z, "");
      BinaryFits(y, op2, z);
      RankIs(y, op2, z);
      BinaryFits(x, op1, Binary(y, "", op2, z));
      Reads(e, AtomText(a) + (s1 + (AtomText(b) + (s2 + AtomText(c)))));
    }
  }

  lemma {:induction false} RankIs(l: Expr, op: BinOp, r: Expr)
    ensures Rank(Binary(l, "", op, r)) == Level(op)
  {
  }

  /** A prefix operator binds tighter than all of them. */
  lemma {:induction false} PrefixFirst(a: Tree, s: string, b: Tree, i: nat)
    requires Atom(a) && Atom(b) && i < 10 && s in Precedence()[i]
    ensures ParseIf(Trees(), "!" + (AtomText(a) + (s + AtomText(b)))) == Value(Infix(Prefixed(Not, a), OpOf(s), b), "")
    ensures ParseIf(Trees(), "-" + (AtomText(a) + (s + AtomText(b)))) == Value(Infix(Prefixed(Neg, a), OpOf(s), b), "")
    ensures ParseIf(Trees(), "~" + (AtomText(a) + (s + AtomText(b)))) == Value(Infix(Prefixed(Compl, a), OpOf(s), b), "")
  {
    OnePrefix("!", Not, a, s, b, i);
    OnePrefix("-", Neg, a, s, b, i);
    OnePrefix("~", Compl, a, s, b, i);
  }

  lemma {:induction false} OnePrefix(u: string, un: UnOp, a: Tree, s: string, b: Tree, i: nat)
    requires Atom(a) && Atom(b) && i < 10 && s in Precedence()[i] && u == [UnarySymbol(un)]
    ensures ParseIf(Trees(), u + (AtomText(a) + (s + AtomText(b)))) == Value(Infix(Prefixed(un, a), OpOf(s), b), "")
  {
    hide Fits, Complete, Strip, Spell, Symbol, Level, Precedence, OpOf, AtomText, Trees, ParseLevel, Show;
    RowLevel(s, i);
    var x, y, op := Spell(a), Spell(b), OpOf(s);
    AtomSpelled(b, "");
    assert AtomText(b) + "" == AtomText(b);
    AtomSpelled(a, s + AtomText(b));
    UnaryFits(un, x, s + AtomText(b));
    BinaryText(Unary("", un, x), op, y, "");
    BinaryFits(Unary("", un, x), op, y);
    Reads(Binary(Unary("", un, x), "", op, y), u + (AtomText(a) + (s + AtomText(b))));
  }

  lemma {:induction false} UnaryFits(un: UnOp, x: Expr, rest: string)
    requires Fits(x) && Complete(x) && Rank(x) == 0
    ensures var e := Unary("", un, x);
            Fits(e) && Complete(e) && Rank(e) == 0 && Strip(e) == Prefixed(un, Strip(x)) && Show(e, rest) == [UnarySymbol(un)] + Show(x, rest)
  {
    assert IsBlank("");
    assert "" + ([UnarySymbol(un)] + Show(x, rest)) == [UnarySymbol(un)] + Show(x, rest);
  }

  /** The conditional operator binds looser than all of them, and its second colon part may be another conditional. */
  lemma {:induction false} ConditionalLast(a: Tree, s: string, b: Tree, c: Tree, d: Tree, x: Tree, y: Tree, i: nat)
    requires Atom(a) && Atom(b) && Atom(c) && Atom(d) && Atom(x) && Atom(y) && i < 10 && s in Precedence()[i]
    ensures ParseIf(Trees(), AtomText(a) + (s + (AtomText(b) + ("?" + (AtomText(c) + (":" + (AtomText(d) + ("?" + (AtomText(x) + (":" + AtomText(y)))))))))))
         == Value(Choice(Infix(a, OpOf(s), b), c, Choice(d, x, y)), "")
  {
    hide Fits, Complete, Strip, Spell, Symbol, Level, Precedence, OpOf, AtomText, Trees, ParseLevel, Show;
    RowLevel(s, i);
    AtomSpelled(y, "");
    assert AtomText(y) + "" == AtomText(y);
    var t1 := ":" + AtomText(y);
    AtomSpelled(x, t1);
    var t2 := "?" + (AtomText(x) + t1);
    AtomSpelled(d, t2);
    var t3 := ":" + (AtomText(d) + t2);
    AtomSpelled(c, t3);
    var t4 := "?" + (AtomText(c) + t3);
    AtomSpelled(b, t4);
    AtomSpelled(a, s + (AtomText(b) + t4));
    var inner := Conditional(Spell(d), "", Spell(x), "", Spell(y));
    ConditionalFits(Spell(d), Spell(x), Spell(y), "");
    BinaryFits(Spell(a), OpOf(s), Spell(b));
    RankIs(Spell(a), OpOf(s), Spell(b));
    var cond := Binary(Spell(a), "", OpOf(s), Spell(b));
    ConditionalFits(cond, Spell(c), inner, "");
    BinaryText(Spell(a), OpOf(s), Spell(b), t4);
    Reads(Conditional(cond, "", Spell(c), "", inner), AtomText(a) + (s + (AtomText(b) + t4)));
  }

  lemma {:induction false} ConditionalFits(c: Expr, y: Expr, n: Expr, rest: string)
    requires Fits(c) && Complete(c) && Fits(y) && Complete(y) && Fits(n) && Complete(n) && Rank(c) <= 10
    ensures var e := Conditional(c, "", y, "", n);
            && Fits(e) && Complete(e) && Strip(e) == Choice(Strip(c), Strip(y), Strip(n))
            && Show(e, rest) == Show(c, "?" + Show(y, ":" + Show(n, rest)))
  {
    assert IsBlank("");
    assert "" + ([':'] + Show(n, rest)) == ":" + Show(n, rest);
    assert "" + (['?'] + Show(y, ":" + Show(n, rest))) == "?" + Show(y, ":" + Show(n, rest));
  }

  // ----- values -----

  function InDecimal(n: nat): string {
    if n == 0 then "0" else DecimalDigits(n)
  }

  /** What C computes for m s n; the arithmetic is that of the machine, which traps when it cannot do an operation. */
  function Computed(w: World, m: int, s: string, n: int): Option<int> {
    if s == "<" then Some(if m < n then 1 else 0)
    else if s == "<=" then Some(if m <= n then 1 else 0)
    else if s == ">" then Some(if m > n then 1 else 0)
    else if s == ">=" then Some(if m >= n then 1 else 0)
    else if s == "==" then Some(if m == n then 1 else 0)
    else if s == "!=" then Some(if m != n then 1 else 0)
    else if s == "&&" then Some(if m != 0 && n != 0 then 1 else 0)
    else if s == "||" then Some(if m != 0 || n != 0 then 1 else 0)
    else if s == "*" then w.arith(Mul, m, n) else if s == "/" then w.arith(Div, m, n) else if s == "%" then w.arith(Mod, m, n)
    else if s == "+" then w.arith(Add, m, n) else if s == "-" then w.arith(Sub, m, n)
    else if s == "<<" then w.arith(Shl, m, n) else if s == ">>" then w.arith(Shr, m, n)
    else if s == "&" then w.arith(BitAnd, m, n) else if s == "^" then w.arith(BitXor, m, n) else w.arith(BitOr, m, n)
  }

  lemma {:induction false} AppliesComputed(w: World, m: int, s: string, n: int, i: nat)
    requires i < 10 && s in Precedence()[i]
    ensures Apply(w, OpOf(s), m, n) == Computed(w, m, s, n)
  {
  }

  /** A line of two numbers and an operator is worth what C computes. */
  lemma {:induction false} TwoNumbers(w: World, m: nat, s: string, n: nat, i: nat)
    requires w.long(m) == m && w.long(n) == n && i < 10 && s in Precedence()[i]
    ensures var v := Computed(w, m, s, n);
            ParseIf(Longs(w), InDecimal(m) + (s + InDecimal(n))) == if v.None? then Trap else Value(v.value, "")
  {
    hide Fits, Complete, Strip, Spell, Symbol, Level, Precedence, OpOf, ParseLevel, Show, Computed;
    RowLevel(s, i);
    AppliesComputed(w, m, s, n, i);
    var a, b := Literal(m), Literal(n);
    AtomSpelled(b, "");
    assert AtomText(b) + "" == AtomText(b);
    AtomSpelled(a, s + AtomText(b));
    BinaryText(Spell(a), OpOf(s), Spell(b), "");
    BinaryFits(Spell(a), OpOf(s), Spell(b));
    Reads(Binary(Spell(a), "", OpOf(s), Spell(b)), InDecimal(m) + (s + InDecimal(n)));
    assert Meaning(Longs(w), a) == Some(m) && Meaning(Longs(w), b) == Some(n);
  }

  /** ! gives 1 for 0 and 0 for anything else; ?: gives the second operand just when the first is not 0. */
  lemma {:induction false} ChoicesAreC(w: World, m: nat, n: nat, k: nat)
    requires w.long(m) == m && w.long(n) == n && w.long(k) == k
    ensures ParseIf(Longs(w), "!" + InDecimal(m)) == Value(if m == 0 then 1 else 0, "")
    ensures ParseIf(Longs(w), InDecimal(m) + ("?" + (InDecimal(n) + (":" + InDecimal(k))))) == Value(if m != 0 then n else k, "")
  {
    hide Fits, Complete, Strip, Spell, ParseLevel, Show;
    var a, b, c := Literal(m), Literal(n), Literal(k);
    assert Meaning(Longs(w), a) == Some(m) && Meaning(Longs(w), b) == Some(n) && Meaning(Longs(w), c) == Some(k);
    AtomSpelled(a, "");
    assert AtomText(a) + "" == AtomText(a);
    UnaryFits(Not, Spell(a), "");
    Reads(Unary("", Not, Spell(a)), "!" + InDecimal(m));
    AtomSpelled(c, "");
    assert AtomText(c) + "" == AtomText(c);
    AtomSpelled(b, ":" + InDecimal(k));
    AtomSpelled(a, "?" + (InDecimal(n) + (":" + InDecimal(k))));
    ConditionalFits(Spell(a), Spell(b), Spell(c), "");
    Reads(Conditional(Spell(a), "", Spell(b), "", Spell(c)), InDecimal(m) + ("?" + (InDecimal(n) + (":" + InDecimal(k)))));
  }

  // ----- numbers and white space -----

  /** n written in a base; the letters are small. */
  function InBase(n: nat, base: nat): string
    requires 2 <= base <= 16
  {
    if n < base then [OneOf(n)] else InBase(n / base, base) + [OneOf(n % base)]
  }

  function OneOf(d: nat): char
    requires d < 16
  {
    "0123456789abcdef"[d]
  }

  lemma {:induction false} OneDigitDenotes(d: nat, base: nat)
    requires d < base <= 16
    ensures DigitValue(OneOf(d)) == d && (d == 0 <==> OneOf(d) == '0')
  {
    assert d in {0, 1, 2, 3, 4, 5, 6, 7, 8, 9, 10, 11, 12, 13, 14, 15};
  }

  lemma {:induction false} InBaseDenotes(n: nat, base: nat)
    requires 2 <= base <= 16
    ensures InBase(n, base) != "" && AllDigits(InBase(n, base), base) && Denotes(InBase(n, base), base) == n
    ensures n > 0 ==> InBase(n, base)[0] != '0'
  {
    hide DigitValue, Denotes, AllDigits, OneOf;
    if n < base {
      NothingDenotes(base);
      DigitMore("", n, base);
      assert "" + [OneOf(n)] == [OneOf(n)];
    } else {
      InBaseDenotes(n / base, base);
      DigitMore(InBase(n / base, base), n % base, base);
      QuotientAndRest(n, base);
    }
  }

  lemma {:induction false} QuotientAndRest(n: nat, base: nat)
    requires base > 0
    ensures n / base * base + n % base == n && (n >= base ==> n / base > 0)
  {
  }

  lemma {:induction false} DigitMore(t: string, d: nat, base: nat)
    requires AllDigits(t, base) && d < base <= 16
    ensures AllDigits(t + [OneOf(d)], base) && Denotes(t + [OneOf(d)], base) == Denotes(t, base) * base + d
    ensures d == 0 <==> OneOf(d) == '0'
  {
    hide Denotes, DigitValue, OneOf;
    OneDigitDenotes(d, base);
    IfRoundTrip.DenotesMore(t, OneOf(d), base);
  }

  lemma {:induction false} NothingDenotes(base: nat)
    ensures Denotes("", base) == 0 && AllDigits("", base)
  {
  }

  lemma {:induction false} NumberReads(radix: Radix, digits: string, suffix: string, n: nat, prefix: string)
    requires IsNumeral(radix, digits) && Denotes(digits, Base(radix)) == n && prefix == PrefixText(radix)
    requires forall i :: 0 <= i < |suffix| ==> suffix[i] in "uUlL"
    ensures ParseIf(Trees(), prefix + (digits + suffix)) == Value(Literal(n), "")
  {
    hide IsNumeral, Denotes, ParseLevel, Trees;
    assert AllOf(IsSuffix, suffix) && IsBlank("");
    assert "" + (PrefixText(radix) + (digits + (suffix + ""))) == prefix + (digits + suffix);
    Reads(IfGrammar.Number("", radix, digits, suffix), prefix + (digits + suffix));
  }

  /** Numbers in the three bases, with any of the qualifiers behind them, are read as what they are. */
  lemma {:induction false} NumbersAreC(n: nat, suffix: string)
    requires forall i :: 0 <= i < |suffix| ==> suffix[i] in "uUlL"
    ensures n > 0 ==> ParseIf(Trees(), InBase(n, 10) + suffix) == Value(Literal(n), "")
    ensures ParseIf(Trees(), "0" + (InBase(n, 8) + suffix)) == Value(Literal(n), "")
    ensures ParseIf(Trees(), "0x" + (InBase(n, 16) + suffix)) == Value(Literal(n), "")
    ensures ParseIf(Trees(), "0X" + (InBase(n, 16) + suffix)) == Value(Literal(n), "")
  {
    hide InBase, Denotes, ParseLevel, Trees, AllDigits;
    InBaseDenotes(n, 10);
    InBaseDenotes(n, 8);
    InBaseDenotes(n, 16);
    if n > 0 {
      NumberReads(Decimal, InBase(n, 10), suffix, n, "");
      assert "" + (InBase(n, 10) + suffix) == InBase(n, 10) + suffix;
    }
    NumberReads(Octal, InBase(n, 8), suffix, n, "0");
    NumberReads(Hexadecimal('x'), InBase(n, 16), suffix, n, "0x");
    NumberReads(Hexadecimal('X'), InBase(n, 16), suffix, n, "0X");
  }

  /** White space may stand before and behind every token: blanks, tabs, and the other characters of isspace. */
  lemma {:induction false} SpacesBetween(a: Tree, s: string, b: Tree, i: nat, sp1: string, sp2: string, sp3: string, sp4: string)
    requires Atom(a) && Atom(b) && i < 10 && s in Precedence()[i]
    requires forall c :: c in sp1 + sp2 + sp3 + sp4 ==> c in {' ', '\t', '\n', '\U{000B}', '\U{000C}', '\r'}
    ensures ParseIf(Trees(), sp1 + (AtomText(a) + (sp2 + (s + (sp3 + (AtomText(b) + sp4)))))) == Value(Infix(a, OpOf(s), b), "")
  {
    hide Precedence, OpOf, Level, Symbol, AtomText, Trees, ParseLevel;
    RowLevel(s, i);
    assert IsBlank(sp1) && IsBlank(sp2) && IsBlank(sp3) && IsBlank(sp4) by { BlankParts(sp1, sp2, sp3, sp4); }
    SpacedAtom(a, sp1, sp2 + (s + (sp3 + (AtomText(b) + sp4))));
    SpacedAtom(b, sp3, sp4);
    var e := Binary(Spaced(a, sp1), sp2, OpOf(s), Spaced(b, sp3));
    SpacedFits(Spaced(a, sp1), sp2, OpOf(s), Spaced(b, sp3));
    LineMeansTree(Trees(), e, sp4);
    TreesMeanThemselves(Strip(e));
  }

  lemma {:induction false} BlankParts(a: string, b: string, c: string, d: string)
    requires forall x :: x in a + b + c + d ==> x in {' ', '\t', '\n', '\U{000B}', '\U{000C}', '\r'}
    ensures IsBlank(a) && IsBlank(b) && IsBlank(c) && IsBlank(d)
  {
    forall t, k | (t == a || t == b || t == c || t == d) && 0 <= k < |t| ensures IsSpace(t[k]) {
      assert t[k] in a + b + c + d;
    }
  }

  function Spaced(t: Tree, sp: string): Expr
    requires Atom(t)
  {
    if t.Symbolic? then Variable(sp, t.name)
    else if t.n == 0 then IfGrammar.Number(sp, Octal, "", "")
    else IfGrammar.Number(sp, Decimal, DecimalDigits(t.n), "")
  }

  lemma {:induction false} SpacedAtom(t: Tree, sp: string, rest: string)
    requires Atom(t) && IsBlank(sp)
    ensures var e := Spaced(t, sp); Fits(e) && Complete(e) && Strip(e) == t && Rank(e) == 0 && Show(e, rest) == sp + (AtomText(t) + rest)
  {
    AtomSpelled(t, rest);
    hide DecimalDigits, IsNumeral, Denotes;
    if t.Literal? {
      if t.n == 0 { assert "0" + ("" + ("" + rest)) == "0" + rest; }
      else { assert "" + (DecimalDigits(t.n) + ("" + rest)) == DecimalDigits(t.n) + rest; }
    }
  }

  lemma {:induction false} SpacedFits(l: Expr, sp: string, op: BinOp, r: Expr)
    requires Fits(l) && Complete(l) && Rank(l) == 0 && Fits(r) && Complete(r) && Rank(r) == 0 && IsBlank(sp)
    ensures var e := Binary(l, sp, op, r); Fits(e) && Complete(e) && Strip(e) == Infix(Strip(l), op, Strip(r))
    ensures forall rest :: Show(Binary(l, sp, op, r), rest) == Show(l, sp + (Symbol(op) + Show(r, rest)))
  {
    hide Level;
  }
}
