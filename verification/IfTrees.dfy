/** How the #if evaluator groups a line, and when that is what C says. */
module IfTrees {
  import opened IfExpression
  import opened IfGrammar
  import opened IfRoundTrip

  // ----- trees -----

  /** An expression tree, without layout or parentheses. */
  datatype Tree =
    | Literal(n: nat)
    | Quoted(text: string)
    | Symbolic(name: string)
    | IsDef(name: string)
    | Asserted(name: string, answers: seq<string>)
    | Nothing
    | Prefixed(un: UnOp, t: Tree)
    | Infix(left: Tree, op: BinOp, right: Tree)
    | Choice(cond: Tree, yes: Tree, no: Tree)

  /** The tree of an expression. */
  function Strip(e: Expr): Tree {
    match e
    case Number(_, radix, digits, _) => Literal(Denotes(digits, Base(radix)))
    case Character(_, _, text) => Quoted(text)
    case Variable(_, name) => Symbolic(name)
    case Defined(_, _, name) => IsDef(name)
    case DefinedParen(_, _, _, name, _) => IsDef(name)
    case Assertion(_, _, name, _, answers) => Asserted(name, Names(answers))
    case Absent(_) => Nothing
    case Paren(_, x, _) => Strip(x)
    case Unary(_, un, x) => Prefixed(un, Strip(x))
    case Binary(l, _, op, r) => Infix(Strip(l), op, Strip(r))
    case Conditional(c, _, y, _, n) => Choice(Strip(c), Strip(y), Strip(n))
  }

  /** The value of a tree; None if its arithmetic traps anywhere. */
  function Meaning<V>(w: Algebra<V>, t: Tree): Option<V> {
    match t
    case Literal(n) => Some(w.number(n))
    case Quoted(text) => Some(w.character(text))
    case Symbolic(name) => Some(w.variable(name))
    case IsDef(name) => Some(w.defined(name))
    case Asserted(name, answers) => Some(w.asserted(name, answers))
    case Nothing => Some(w.nothing)
    case Prefixed(un, x) => (match Meaning(w, x) case None => None case Some(v) => Some(w.unary(un, v)))
    case Infix(l, op, r) =>
      (match Meaning(w, l)
       case None => None
       case Some(a) => match Meaning(w, r) case None => None case Some(b) => w.binary(op, a, b))
    case Choice(c, y, n) =>
      (match Meaning(w, c)
       case None => None
       case Some(v) =>
         match Meaning(w, y)
         case None => None
         case Some(a) => match Meaning(w, n) case None => None case Some(b) => Some(w.choose(v, a, b)))
  }

  lemma {:induction false} EvalIsMeaning<V>(w: Algebra<V>, e: Expr)
    ensures Eval(w, e) == Meaning(w, Strip(e))
  {
    match e
    case Paren(_, x, _) => EvalIsMeaning(w, x);
    case Unary(_, _, x) => EvalIsMeaning(w, x);
    case Binary(l, _, _, r) =>
      EvalIsMeaning(w, l);
      EvalIsMeaning(w, r);
    case Conditional(c, _, y, _, n) =>
      EvalIsMeaning(w, c);
      EvalIsMeaning(w, y);
      EvalIsMeaning(w, n);
    case _ =>
  }

  /** Computing with trees shows what the parser made of a line. */
  function Trees(): Algebra<Tree> {
    Algebra((op, a, b) => Some(Infix(a, op, b)), (un, a) => Prefixed(un, a), (c, a, b) => Choice(c, a, b),
            n => Literal(n), text => Quoted(text), name => IsDef(name), name => Symbolic(name),
            (name, answers) => Asserted(name, answers), Nothing)
  }

  lemma {:induction false} TreesMeanThemselves(t: Tree)
    ensures Meaning(Trees(), t) == Some(t)
  {
    match t
    case Prefixed(_, x) => TreesMeanThemselves(x);
    case Infix(l, _, r) =>
      TreesMeanThemselves(l);
      TreesMeanThemselves(r);
    case Choice(c, y, n) =>
      TreesMeanThemselves(c);
      TreesMeanThemselves(y);
      TreesMeanThemselves(n);
    case _ =>
  }

  /** A line means its tree, in every layout. */
  lemma {:induction false} LineMeansTree<V>(w: Algebra<V>, e: Expr, sp: string)
    requires Fits(e) && IsBlank(sp) && (Complete(e) || sp == "")
    ensures ParseIf(w, Show(e, sp)) == match Meaning(w, Strip(e)) case None => Trap case Some(v) => Value(v, "")
  {
    hide ParseLevel, Show, Eval, Fits, Complete, IsBlank, Meaning, Strip;
    WholeLine(w, e, sp);
    EvalIsMeaning(w, e);
  }

  /** The grammar is unambiguous: a text can be read as one tree only, up to one place only. */
  lemma {:induction false} OneTree(e1: Expr, rest1: string, e2: Expr, rest2: string)
    requires Fits(e1) && Closed(e1, rest1, 11) && Fits(e2) && Closed(e2, rest2, 11)
    requires Show(e1, rest1) == Show(e2, rest2)
    ensures Strip(e1) == Strip(e2) && Skip(rest1) == Skip(rest2)
  {
    hide ParseLevel, Show, Eval, Fits, Closed, Meaning, Strip, Skip, Trees, Rank;
    RoundTrip(Trees(), e1, rest1, 11);
    RoundTrip(Trees(), e2, rest2, 11);
    EvalIsMeaning(Trees(), e1);
    EvalIsMeaning(Trees(), e2);
    TreesMeanThemselves(Strip(e1));
    TreesMeanThemselves(Strip(e2));
  }

  // ----- spelling with as few parentheses as possible -----

  /** The names can be written, and no operand is missing. */
  predicate Nameable(t: Tree) {
    match t
    case Literal(_) => true
    case Quoted(text) => AllOf(NotQuote, text) && (text != "" ==> !IsSpace(text[0]))
    case Symbolic(name) => IsPlainName(name)
    case IsDef(name) => IsName(name)
    case Asserted(name, answers) => IsName(name) && answers != [] && forall i :: 0 <= i < |answers| ==> IsName(answers[i])
    case Nothing => false
    case Prefixed(_, x) => Nameable(x)
    case Infix(l, _, r) => Nameable(l) && Nameable(r)
    case Choice(c, y, n) => Nameable(c) && Nameable(y) && Nameable(n)
  }

  function DigitChar(d: nat): char
    requires d < 10
  {
    '0' + d as char
  }

  /** n in decimal; empty for 0. */
  function DecimalDigits(n: nat): string {
    if n == 0 then "" else DecimalDigits(n / 10) + [DigitChar(n % 10)]
  }

  function Listed(names: seq<string>): seq<Answer> {
    if names == [] then []
    else [Answer("", names[0], "", if |names| == 1 then ')' else ',')] + Listed(names[1..])
  }

  /** Parentheses only where the operand is looser than its place allows. */
  function Within(e: Expr, l: nat): Expr {
    if Rank(e) <= l then e else Paren("", e, "")
  }

  function Spell(t: Tree): Expr {
    match t
    case Literal(n) => if n == 0 then Number("", Octal, "", "") else Number("", Decimal, DecimalDigits(n), "")
    case Quoted(text) => Character("", "", text)
    case Symbolic(name) => Variable("", name)
    case IsDef(name) => Defined("", " ", name)
    case Asserted(name, answers) => Assertion("", "", name, "", Listed(answers))
    case Nothing => Absent("")
    case Prefixed(un, x) => Unary("", un, Within(Spell(x), 0))
    case Infix(l, op, r) => Binary(Within(Spell(l), Level(op) - 1), "", op, Within(Spell(r), Level(op)))
    case Choice(c, y, n) => Conditional(Within(Spell(c), 10), "", Spell(y), "", Spell(n))
  }

  lemma {:induction false} DecimalIsNumeral(n: nat)
    ensures n > 0 ==> IsNumeral(Decimal, DecimalDigits(n))
    ensures Denotes(DecimalDigits(n), 10) == n
  {
    if n == 0 {
      assert DecimalDigits(0) == "";
    } else {
      DecimalIsNumeral(n / 10);
      DenotesMore(DecimalDigits(n / 10), DigitChar(n % 10), 10);
      assert DigitValue(DigitChar(n % 10)) == n % 10;
    }
  }

  lemma {:induction false} ListedFits(names: seq<string>)
    requires forall i :: 0 <= i < |names| ==> IsName(names[i])
    ensures names != [] ==> IsList(Listed(names))
    ensures Names(Listed(names)) == names
  {
    hide IsName;
    if names == [] {
      assert Names([]) == [];
    } else {
      ListedFits(names[1..]);
      var a, more := Listed(names)[0], Listed(names[1..]);
      assert Listed(names) == [a] + more && ([a] + more)[1..] == more;
      assert |more| == 0 <==> |names| == 1;
      assert names == [names[0]] + names[1..];
    }
  }

  lemma {:induction false} WithinFits(e: Expr, l: nat)
    requires Fits(e) && Complete(e)
    ensures Fits(Within(e, l)) && Complete(Within(e, l)) && Rank(Within(e, l)) <= l && Strip(Within(e, l)) == Strip(e)
  {
  }

  lemma {:induction false} LeafFits(t: Tree)
    requires Nameable(t) && !t.Prefixed? && !t.Infix? && !t.Choice?
    ensures Fits(Spell(t)) && Complete(Spell(t)) && Strip(Spell(t)) == t
  {
    hide IsNumeral, Denotes, DecimalDigits, IsName, IsList, Listed, Names;
    match t
    case Literal(n) => LiteralFits(n);
    case Asserted(_, answers) => ListedFits(answers);
    case _ =>
  }

  lemma {:induction false} LiteralFits(n: nat)
    ensures Fits(Spell(Literal(n))) && Strip(Spell(Literal(n))) == Literal(n)
  {
    DecimalIsNumeral(n);
    assert Denotes("", 8) == 0;
  }

  /** The spelling of a tree follows the grammar and has that tree. */
  lemma {:induction false} SpellFits(t: Tree)
    requires Nameable(t)
    ensures Fits(Spell(t)) && Complete(Spell(t)) && Strip(Spell(t)) == t
  {
    hide Within, Level, Spell, Fits, Complete, Strip, AllOf, IsName, IsPlainName;
    match t
    case Prefixed(un, x) =>
      SpellFits(x);
      PrefixedFits(un, x);
    case Infix(l, op, r) =>
      SpellFits(l);
      SpellFits(r);
      InfixFits(l, op, r);
    case Choice(c, y, n) =>
      SpellFits(c);
      SpellFits(y);
      SpellFits(n);
      ChoiceFits(c, y, n);
    case _ => LeafFits(t);
  }

  lemma {:induction false} BinaryFits(a: Expr, op: BinOp, b: Expr)
    requires Fits(a) && Complete(a) && Rank(a) <= Level(op) - 1 && Fits(b) && Complete(b) && Rank(b) <= Level(op)
    ensures Fits(Binary(a, "", op, b)) && Complete(Binary(a, "", op, b)) && Strip(Binary(a, "", op, b)) == Infix(Strip(a), op, Strip(b))
  {
    hide IsNumeral, IsPlainName, IsName, IsList, Level;
  }

  lemma {:induction false} InfixFits(l: Tree, op: BinOp, r: Tree)
    requires Fits(Spell(l)) && Complete(Spell(l)) && Fits(Spell(r)) && Complete(Spell(r)) && Strip(Spell(l)) == l && Strip(Spell(r)) == r
    ensures var e := Spell(Infix(l, op, r)); Fits(e) && Complete(e) && Strip(e) == Infix(l, op, r)
  {
    hide Within, Fits, Complete, Strip, Level, Rank;
    WithinFits(Spell(l), Level(op) - 1);
    WithinFits(Spell(r), Level(op));
    BinaryFits(Within(Spell(l), Level(op) - 1), op, Within(Spell(r), Level(op)));
  }

  lemma {:induction false} ChoiceFits(c: Tree, y: Tree, n: Tree)
    requires Fits(Spell(c)) && Complete(Spell(c)) && Fits(Spell(y)) && Complete(Spell(y)) && Fits(Spell(n)) && Complete(Spell(n))
    requires Strip(Spell(c)) == c && Strip(Spell(y)) == y && Strip(Spell(n)) == n
    ensures var e := Spell(Choice(c, y, n)); Fits(e) && Complete(e) && Strip(e) == Choice(c, y, n)
  {
    hide Within, IsNumeral, AllOf, IsPlainName, IsName, IsList;
    NothingIsBlank();
    WithinFits(Spell(c), 10);
  }

  lemma {:induction false} PrefixedFits(un: UnOp, x: Tree)
    requires Fits(Spell(x)) && Complete(Spell(x)) && Strip(Spell(x)) == x
    ensures var e := Spell(Prefixed(un, x)); Fits(e) && Complete(e) && Strip(e) == Prefixed(un, x)
  {
    hide Within, IsNumeral, AllOf, IsPlainName, IsName, IsList;
    NothingIsBlank();
    WithinFits(Spell(x), 0);
  }

  /** The pairs of parentheses of e: around operands, around a name behind `defined`, and around answers. */
  function Parens(e: Expr): nat {
    match e
    case DefinedParen(_, _, _, _, _) => 1
    case Assertion(_, _, _, _, _) => 1
    case Paren(_, x, _) => 1 + Parens(x)
    case Unary(_, _, x) => Parens(x)
    case Binary(l, _, _, r) => Parens(l) + Parens(r)
    case Conditional(c, _, y, _, n) => Parens(c) + Parens(y) + Parens(n)
    case _ => 0
  }

  lemma {:induction false} WithinParens(e: Expr, l: nat)
    ensures Parens(Within(e, l)) == Parens(e) + if Rank(e) > l then 1 else 0
  {
  }

  lemma {:induction false} InfixParens(l: Tree, op: BinOp, r: Tree)
    ensures var e := Spell(Infix(l, op, r));
            Rank(e) == Level(op) && Parens(e) == Parens(Within(Spell(l), Level(op) - 1)) + Parens(Within(Spell(r), Level(op)))
  {
    hide Within, Level;
  }

  lemma {:induction false} BinaryIsMinimal(l: Expr, sp: string, op: BinOp, r: Expr)
    requires Rank(l) < Level(op) && Rank(r) <= Level(op)
    requires Parens(Spell(Strip(l))) + (if Rank(l) < Rank(Spell(Strip(l))) then 1 else 0) <= Parens(l)
    requires Parens(Spell(Strip(r))) + (if Rank(r) < Rank(Spell(Strip(r))) then 1 else 0) <= Parens(r)
    ensures var e := Binary(l, sp, op, r); Parens(Spell(Strip(e))) + (if Rank(e) < Rank(Spell(Strip(e))) then 1 else 0) <= Parens(e)
  {
    hide Level, Spell, Within;
    InfixParens(Strip(l), op, Strip(r));
    WithinParens(Spell(Strip(l)), Level(op) - 1);
    WithinParens(Spell(Strip(r)), Level(op));
  }

  lemma {:induction false} ConditionalIsMinimal(c: Expr, sp: string, y: Expr, sp1: string, n: Expr)
    requires Rank(c) <= 10
    requires Parens(Spell(Strip(c))) + (if Rank(c) < Rank(Spell(Strip(c))) then 1 else 0) <= Parens(c)
    requires Parens(Spell(Strip(y))) <= Parens(y) && Parens(Spell(Strip(n))) <= Parens(n)
    ensures var e := Conditional(c, sp, y, sp1, n); Parens(Spell(Strip(e))) + (if Rank(e) < Rank(Spell(Strip(e))) then 1 else 0) <= Parens(e)
  {
    hide Level, Within;
    WithinParens(Spell(Strip(c)), 10);
  }

  /** No way of writing a tree does with fewer parentheses; and one that stands at a tighter level needs more. */
  lemma {:induction false} SpellIsMinimal(e: Expr)
    requires Fits(e)
    ensures Parens(Spell(Strip(e))) + (if Rank(e) < Rank(Spell(Strip(e))) then 1 else 0) <= Parens(e)
  {
    hide Level, Listed, Names, Denotes, DecimalDigits, IsNumeral, AllOf, IsPlainName, IsName, IsList, Complete, Within, Base;
    match e
    case Paren(_, x, _) => SpellIsMinimal(x);
    case Unary(_, _, x) =>
      SpellIsMinimal(x);
      WithinParens(Spell(Strip(x)), 0);
    case Binary(l, sp, op, r) =>
      SpellIsMinimal(l);
      SpellIsMinimal(r);
      BinaryIsMinimal(l, sp, op, r);
    case Conditional(c, sp, y, sp1, n) =>
      SpellIsMinimal(c);
      SpellIsMinimal(y);
      SpellIsMinimal(n);
      ConditionalIsMinimal(c, sp, y, sp1, n);
    case _ =>
  }

  /** So a text with fewer parentheses than the spelling of t is never read as t. */
  lemma {:induction false} EveryParenCounts(t: Tree, e: Expr, sp: string)
    requires Fits(e) && IsBlank(sp) && (Complete(e) || sp == "") && Parens(e) < Parens(Spell(t))
    ensures ParseIf(Trees(), Show(e, sp)) == Value(Strip(e), "") && Strip(e) != t
  {
    hide ParseLevel, Show, Fits, Meaning, Strip, Trees, IsBlank, Complete, Spell;
    LineMeansTree(Trees(), e, sp);
    TreesMeanThemselves(Strip(e));
    SpellIsMinimal(e);
  }

  /** Printing any expression tree with as few parentheses as possible and parsing the text yields the tree's value. */
  lemma {:induction false} TreeRoundTrip<V>(w: Algebra<V>, t: Tree, sp: string)
    requires Nameable(t) && IsBlank(sp)
    ensures ParseIf(w, Show(Spell(t), sp)) == match Meaning(w, t) case None => Trap case Some(v) => Value(v, "")
  {
    hide ParseLevel, Show, Fits, Spell, Meaning, Nameable, IsBlank, Complete;
    SpellFits(t);
    LineMeansTree(w, Spell(t), sp);
  }

  // ----- the grouping of C -----

  /** The same text grouped as C groups it (section 6.5 of ISO/IEC 9899:1999): operators of one level to the left. */
  function CForm(e: Expr): Expr
    decreases e, 0
  {
    match e
    case Paren(sp, x, sp1) => Paren(sp, CForm(x), sp1)
    case Unary(sp, un, x) => Unary(sp, un, CForm(x))
    case Binary(l, sp, op, r) => Regroup(CForm(l), sp, op, r)
    case Conditional(c, sp, y, sp1, n) => Conditional(CForm(c), sp, CForm(y), sp1, CForm(n))
    case _ => e
  }

  /** `left op r`, with the chain of operators in r taken one by one. */
  function Regroup(left: Expr, sp: string, op: BinOp, r: Expr): Expr
    decreases r, 1
  {
    if r.Binary? && Level(r.op) == Level(op) then Regroup(Binary(left, sp, op, CForm(r.left)), r.sp, r.op, r.right)
    else Binary(left, sp, op, CForm(r))
  }

  /** The grammar of C: on the left also equally tight operands, on the right only tighter ones. */
  predicate CFits(e: Expr) {
    match e
    case Paren(_, x, _) => CFits(x)
    case Unary(_, _, x) => CFits(x) && Rank(x) == 0
    case Binary(l, _, op, r) => CFits(l) && CFits(r) && Rank(l) <= Level(op) && Rank(r) < Level(op)
    case Conditional(c, _, y, _, n) => CFits(c) && CFits(y) && CFits(n) && Rank(c) <= 10
    case _ => true
  }

  lemma {:induction false} CFormFits(e: Expr)
    requires Fits(e)
    ensures CFits(CForm(e)) && Rank(CForm(e)) == Rank(e)
    decreases e, 0
  {
    hide Regroup, IsNumeral, IsPlainName, IsName, AllOf, IsList, Complete;
    match e
    case Paren(_, x, _) => CFormFits(x);
    case Unary(_, _, x) => CFormFits(x);
    case Binary(l, sp, op, r) =>
      CFormFits(l);
      RegroupFits(CForm(l), sp, op, r);
    case Conditional(c, _, y, _, n) =>
      CFormFits(c);
      CFormFits(y);
      CFormFits(n);
    case _ =>
  }

  lemma {:induction false} BinaryParts(e: Expr)
    requires e.Binary? && Fits(e)
    ensures Fits(e.left) && Fits(e.right) && Rank(e.left) < Level(e.op) && Rank(e.right) <= Level(e.op)
  {
  }

  lemma {:induction false} CBinary(l: Expr, sp: string, op: BinOp, r: Expr)
    ensures CFits(Binary(l, sp, op, r)) <==> CFits(l) && CFits(r) && Rank(l) <= Level(op) && Rank(r) < Level(op)
  {
  }

  lemma {:induction false} RegroupFits(left: Expr, sp: string, op: BinOp, r: Expr)
    requires CFits(left) && Rank(left) <= Level(op) && Fits(r) && Rank(r) <= Level(op)
    ensures CFits(Regroup(left, sp, op, r)) && Rank(Regroup(left, sp, op, r)) == Level(op)
    decreases r, 1
  {
    hide CForm, Level, Fits, CFits;
    if r.Binary? && Level(r.op) == Level(op) {
      BinaryParts(r);
      CFormFits(r.left);
      CBinary(left, sp, op, CForm(r.left));
      RegroupFits(Binary(left, sp, op, CForm(r.left)), r.sp, r.op, r.right);
    } else {
      CFormFits(r);
      CBinary(left, sp, op, CForm(r));
    }
  }

  lemma {:induction false} BinaryShows(l: Expr, sp: string, op: BinOp, r: Expr, rest: string)
    ensures Show(Binary(l, sp, op, r), rest) == Show(l, sp + (Symbol(op) + Show(r, rest)))
  {
  }

  /** Grouping does not change the text. */
  lemma {:induction false} CFormText(e: Expr, rest: string)
    ensures Show(CForm(e), rest) == Show(e, rest)
    decreases e, 0
  {
    hide Regroup, Level, Symbol, ShowAnswers, PrefixText;
    match e
    case Paren(_, x, sp1) => CFormText(x, sp1 + ([')'] + rest));
    case Unary(_, _, x) => CFormText(x, rest);
    case Binary(l, sp, op, r) =>
      RegroupText(CForm(l), sp, op, r, rest);
      CFormText(l, sp + (Symbol(op) + Show(r, rest)));
    case Conditional(c, sp, y, sp1, n) =>
      CFormText(n, rest);
      CFormText(y, sp1 + ([':'] + Show(n, rest)));
      CFormText(c, sp + (['?'] + Show(y, sp1 + ([':'] + Show(n, rest)))));
    case _ =>
  }

  lemma {:induction false} RegroupText(left: Expr, sp: string, op: BinOp, r: Expr, rest: string)
    ensures Show(Regroup(left, sp, op, r), rest) == Show(left, sp + (Symbol(op) + Show(r, rest)))
    decreases r, 1
  {
    hide CForm, Level, Symbol, Show;
    if r.Binary? && Level(r.op) == Level(op) {
      var more := r.sp + (Symbol(r.op) + Show(r.right, rest));
      RegroupText(Binary(left, sp, op, CForm(r.left)), r.sp, r.op, r.right, rest);
      CFormText(r.left, more);
      BinaryShows(left, sp, op, CForm(r.left), more);
      BinaryShows(r.left, r.sp, r.op, r.right, rest);
    } else {
      CFormText(r, rest);
      BinaryShows(left, sp, op, CForm(r), rest);
    }
  }

  function Nodes(t: Tree): nat {
    match t
    case Prefixed(_, x) => 1 + Nodes(x)
    case Infix(l, _, r) => Nodes(l) + 1 + Nodes(r)
    case Choice(c, y, n) => Nodes(c) + 1 + Nodes(y) + Nodes(n)
    case _ => 1
  }

  lemma {:induction false} NodesKept(e: Expr)
    ensures Nodes(Strip(CForm(e))) == Nodes(Strip(e))
    decreases e, 0
  {
    hide Regroup, Level, Names, Denotes, Base;
    match e
    case Paren(_, x, _) => NodesKept(x);
    case Unary(_, _, x) => NodesKept(x);
    case Binary(l, sp, op, r) =>
      NodesKept(l);
      RegroupNodes(CForm(l), sp, op, r);
    case Conditional(c, _, y, _, n) =>
      NodesKept(c);
      NodesKept(y);
      NodesKept(n);
    case _ =>
  }

  lemma {:induction false} BinaryNodes(l: Expr, sp: string, op: BinOp, r: Expr)
    ensures var t := Strip(Binary(l, sp, op, r));
            t.Infix? && t.left == Strip(l) && Nodes(t) == Nodes(Strip(l)) + 1 + Nodes(Strip(r))
  {
  }

  lemma {:induction false} RegroupNodes(left: Expr, sp: string, op: BinOp, r: Expr)
    ensures var t := Strip(Regroup(left, sp, op, r));
            Nodes(t) == Nodes(Strip(left)) + 1 + Nodes(Strip(r)) && t.Infix? && Nodes(t.left) >= Nodes(Strip(left))
    decreases r, 1
  {
    hide CForm, Level, Strip, Nodes;
    if r.Binary? && Level(r.op) == Level(op) {
      NodesKept(r.left);
      BinaryNodes(left, sp, op, CForm(r.left));
      BinaryNodes(r.left, r.sp, r.op, r.right);
      RegroupNodes(Binary(left, sp, op, CForm(r.left)), r.sp, r.op, r.right);
    } else {
      NodesKept(r);
      BinaryNodes(left, sp, op, CForm(r));
    }
  }

  /** Nowhere do two operators of one level follow each other without parentheses. */
  predicate ChainFree(e: Expr) {
    match e
    case Paren(_, x, _) => ChainFree(x)
    case Unary(_, _, x) => ChainFree(x)
    case Binary(l, _, op, r) => ChainFree(l) && ChainFree(r) && !(r.Binary? && Level(r.op) == Level(op))
    case Conditional(c, _, y, _, n) => ChainFree(c) && ChainFree(y) && ChainFree(n)
    case _ => true
  }

  /** The code groups a line as C does exactly when no two operators of one level follow each other without parentheses. */
  lemma {:induction false} GroupsAsC(e: Expr)
    ensures Strip(CForm(e)) == Strip(e) <==> ChainFree(e)
  {
    match e
    case Paren(_, x, _) => GroupsAsC(x);
    case Unary(_, _, x) => GroupsAsC(x);
    case Binary(l, sp, op, r) =>
      GroupsAsC(l);
      GroupsAsC(r);
      if r.Binary? && Level(r.op) == Level(op) {
        NodesKept(l);
        RegroupNodes(Binary(CForm(l), sp, op, CForm(r.left)), r.sp, r.op, r.right);
      }
    case Conditional(c, _, y, _, n) =>
      GroupsAsC(c);
      GroupsAsC(y);
      GroupsAsC(n);
    case _ =>
  }

  /** The only chains are of && alone or of || alone. */
  predicate LogicalChains(e: Expr) {
    match e
    case Paren(_, x, _) => LogicalChains(x)
    case Unary(_, _, x) => LogicalChains(x)
    case Binary(l, _, op, r) =>
      LogicalChains(l) && LogicalChains(r) && (r.Binary? && Level(r.op) == Level(op) ==> op == And || op == Or)
    case Conditional(c, _, y, _, n) => LogicalChains(c) && LogicalChains(y) && LogicalChains(n)
    case _ => true
  }

  /** What two values and an operator make, either of them possibly missing. */
  function Joined(w: World, a: Option<int>, op: BinOp, b: Option<int>): Option<int> {
    if a.None? || b.None? then None else Apply(w, op, a.value, b.value)
  }

  /** Such chains are worth the same either way. */
  lemma {:induction false} LogicalChainsKeep(w: World, e: Expr)
    requires LogicalChains(e)
    ensures Meaning(Longs(w), Strip(CForm(e))) == Meaning(Longs(w), Strip(e))
    decreases e, 0
  {
    hide Apply, ApplyUnary, Regroup, Level, Names, Denotes, Base, Longs, Joined;
    match e
    case Paren(_, x, _) => LogicalChainsKeep(w, x);
    case Unary(_, _, x) => LogicalChainsKeep(w, x);
    case Binary(l, sp, op, r) =>
      LogicalChainsKeep(w, l);
      RegroupKeeps(w, CForm(l), sp, op, r);
      InfixMeans(w, Strip(l), op, Strip(r));
    case Conditional(c, _, y, _, n) =>
      LogicalChainsKeep(w, c);
      LogicalChainsKeep(w, y);
      LogicalChainsKeep(w, n);
    case _ =>
  }

  lemma {:induction false} RegroupKeeps(w: World, left: Expr, sp: string, op: BinOp, r: Expr)
    requires LogicalChains(r) && (r.Binary? && Level(r.op) == Level(op) ==> op == And || op == Or)
    ensures Meaning(Longs(w), Strip(Regroup(left, sp, op, r))) == Joined(w, Meaning(Longs(w), Strip(left)), op, Meaning(Longs(w), Strip(r)))
    decreases r, 1
  {
    hide Apply, ApplyUnary, CForm, Names, Denotes, Base, Longs, Joined, Meaning;
    if r.Binary? && Level(r.op) == Level(op) {
      LogicalChainsKeep(w, r.left);
      assert r.op == op by { SameLogical(op, r.op); }
      RegroupKeeps(w, Binary(left, sp, op, CForm(r.left)), r.sp, r.op, r.right);
      InfixMeans(w, Strip(left), op, Strip(CForm(r.left)));
      InfixMeans(w, Strip(r.left), op, Strip(r.right));
      LogicalAssociates(w, Meaning(Longs(w), Strip(left)), op, Meaning(Longs(w), Strip(r.left)), Meaning(Longs(w), Strip(r.right)));
    } else {
      LogicalChainsKeep(w, r);
      InfixMeans(w, Strip(left), op, Strip(CForm(r)));
    }
  }

  lemma {:induction false} SameLogical(op: BinOp, op1: BinOp)
    requires Level(op) == Level(op1) && (op == And || op == Or)
    ensures op1 == op
  {
  }

  lemma {:induction false} InfixMeans(w: World, l: Tree, op: BinOp, r: Tree)
    ensures Meaning(Longs(w), Infix(l, op, r)) == Joined(w, Meaning(Longs(w), l), op, Meaning(Longs(w), r))
  {
    hide Apply;
  }

  lemma {:induction false} LogicalAssociates(w: World, a: Option<int>, op: BinOp, b: Option<int>, c: Option<int>)
    requires op == And || op == Or
    ensures Joined(w, Joined(w, a, op, b), op, c) == Joined(w, a, op, Joined(w, b, op, c))
  {
  }

  // ----- the evaluation of C -----

  /** The value C gives a tree, evaluating an operand of &&, || and ?: only when it is wanted. */
  function CMeaning(w: World, t: Tree): Option<int> {
    match t
    case Prefixed(un, x) => (match CMeaning(w, x) case None => None case Some(v) => Some(ApplyUnary(w, un, v)))
    case Infix(l, op, r) =>
      (match CMeaning(w, l)
       case None => None
       case Some(a) => if Decides(op, a) then Some(Truth(a != 0)) else Joined(w, Some(a), op, CMeaning(w, r)))
    case Choice(c, y, n) =>
      (match CMeaning(w, c) case None => None case Some(v) => if v != 0 then CMeaning(w, y) else CMeaning(w, n))
    case _ => Meaning(Longs(w), t)
  }

  /** The left operand decides the result alone. */
  predicate Decides(op: BinOp, a: int) {
    (op == And && a == 0) || (op == Or && a != 0)
  }

  /** Some operand that C would not evaluate traps. */
  predicate SkippedTraps(w: World, t: Tree) {
    match t
    case Prefixed(_, x) => SkippedTraps(w, x)
    case Infix(l, op, r) =>
      || SkippedTraps(w, l)
      || (CMeaning(w, l).Some? && if Decides(op, CMeaning(w, l).value) then Meaning(Longs(w), r).None? else SkippedTraps(w, r))
    case Choice(c, y, n) =>
      || SkippedTraps(w, c)
      || (CMeaning(w, c).Some? &&
          if CMeaning(w, c).value != 0 then SkippedTraps(w, y) || Meaning(Longs(w), n).None?
          else SkippedTraps(w, n) || Meaning(Longs(w), y).None?)
    case _ => false
  }

  /** The code evaluates everything, and differs from C exactly when C has a value and an operand it skips traps. */
  lemma {:induction false} EvaluatesAsC(w: World, t: Tree)
    ensures Meaning(Longs(w), t) == if SkippedTraps(w, t) then None else CMeaning(w, t)
    ensures Meaning(Longs(w), t) != CMeaning(w, t) <==> CMeaning(w, t).Some? && SkippedTraps(w, t)
  {
    match t
    case Prefixed(_, x) => EvaluatesAsC(w, x);
    case Infix(l, op, r) =>
      EvaluatesAsC(w, l);
      EvaluatesAsC(w, r);
    case Choice(c, y, n) =>
      EvaluatesAsC(w, c);
      EvaluatesAsC(w, y);
      EvaluatesAsC(w, n);
    case _ =>
  }

  /** A line without chains, but for those of && or of || alone, and without a trap in what C skips has the value C gives it. */
  lemma {:induction false} LineAsC(w: World, e: Expr, sp: string)
    requires Fits(e) && IsBlank(sp) && (Complete(e) || sp == "")
    requires LogicalChains(e) && !SkippedTraps(w, Strip(CForm(e)))
    ensures ParseIf(Longs(w), Show(e, sp)) == match CMeaning(w, Strip(CForm(e))) case None => Trap case Some(v) => Value(v, "")
  {
    hide ParseLevel, Show, Fits, Complete, IsBlank, Meaning, CMeaning, SkippedTraps, CForm, Strip, LogicalChains;
    LineMeansTree(Longs(w), e, sp);
    LogicalChainsKeep(w, e);
    EvaluatesAsC(w, Strip(CForm(e)));
  }

  // ----- two lines -----

  function OneDigit(c: char): Expr {
    Number("", Decimal, [c], "")
  }

  lemma {:induction false} NothingBefore(t: string)
    ensures "" + t == t
  {
  }

  lemma {:induction false} OneDigitText(c: char, rest: string)
    ensures Show(OneDigit(c), rest) == [c] + rest
  {
    NothingBefore(rest);
    NothingBefore([c] + rest);
  }

  lemma {:induction false} OneDigitIs(c: char)
    requires '0' < c <= '9'
    ensures OneDigit(c).Number? && Fits(OneDigit(c)) && Complete(OneDigit(c)) && Rank(OneDigit(c)) == 0
    ensures Strip(OneDigit(c)) == Literal((c - '0') as nat) && CForm(OneDigit(c)) == OneDigit(c) && ChainFree(OneDigit(c))
  {
    hide Denotes;
    DenotesMore("", c, 10);
    NoDigits(10);
    NothingBefore([c]);
  }

  lemma {:induction false} NoDigits(base: nat)
    ensures Denotes("", base) == 0
  {
  }

  /** 8-3-2 */
  function Differences(): Expr {
    Binary(OneDigit('8'), "", Sub, Binary(OneDigit('3'), "", Sub, OneDigit('2')))
  }

  lemma {:induction false} SignText(l: Expr, c: char, op: BinOp, r: Expr, rest: string, text: string)
    requires Symbol(op) == [c] && Show(r, rest) == text
    ensures Show(Binary(l, "", op, r), rest) == Show(l, [c] + text)
  {
    hide Symbol;
    NothingBefore([c] + text);
  }

  lemma {:induction false} DifferencesText()
    ensures Show(Differences(), "") == ['8', '-', '3', '-', '2']
  {
    hide OneDigit, Show;
    OneDigitText('2', "");
    OneDigitText('3', ['-', '2']);
    OneDigitText('8', ['-', '3', '-', '2']);
    assert ['2'] + "" == ['2'] && ['-'] + ['2'] == ['-', '2'] && ['3'] + ['-', '2'] == ['3', '-', '2'];
    assert ['-'] + ['3', '-', '2'] == ['-', '3', '-', '2'] && ['8'] + ['-', '3', '-', '2'] == ['8', '-', '3', '-', '2'];
    SignText(OneDigit('3'), '-', Sub, OneDigit('2'), "", ['2']);
    SignText(OneDigit('8'), '-', Sub, Binary(OneDigit('3'), "", Sub, OneDigit('2')), "", ['3', '-', '2']);
  }

  lemma {:induction false} DifferencesTrees()
    ensures Fits(Differences()) && Complete(Differences()) && !ChainFree(Differences())
    ensures Strip(Differences()) == Infix(Literal(8), Sub, Infix(Literal(3), Sub, Literal(2)))
    ensures Strip(CForm(Differences())) == Infix(Infix(Literal(8), Sub, Literal(3)), Sub, Literal(2))
  {
    hide OneDigit;
    OneDigitIs('2');
    OneDigitIs('3');
    OneDigitIs('8');
  }

  /** 8-3-2 is 7 to the code and 3 to C. */
  lemma {:induction false} SubtractionAssociatesRight(w: World)
    requires w.long(8) == 8 && w.long(3) == 3 && w.long(2) == 2
    requires w.arith(Sub, 3, 2) == Some(1) && w.arith(Sub, 8, 1) == Some(7) && w.arith(Sub, 8, 3) == Some(5) && w.arith(Sub, 5, 2) == Some(3)
    ensures ParseIf(Longs(w), ['8', '-', '3', '-', '2']) == Value(7, "")
    ensures Show(Differences(), "") == ['8', '-', '3', '-', '2'] && CMeaning(w, Strip(CForm(Differences()))) == Some(3)
  {
    hide ParseLevel, Differences, Fits, Show, Strip, CForm, Complete;
    DifferencesText();
    DifferencesTrees();
    NothingIsBlank();
    LineMeansTree(Longs(w), Differences(), "");
    assert Meaning(Longs(w), Infix(Literal(3), Sub, Literal(2))) == Some(1);
    assert CMeaning(w, Infix(Literal(8), Sub, Literal(3))) == Some(5);
  }

  /** 0&&1/0 */
  function Division(): Tree {
    Infix(Literal(0), And, Infix(Literal(1), Div, Literal(0)))
  }

  lemma {:induction false} DivisionText()
    ensures Show(Spell(Division()), "") == ['0', '&', '&', '1', '/', '0']
  {
    hide OneDigit, DecimalDigits, Show;
    OneIs();
    var zero, one := Spell(Literal(0)), OneDigit('1');
    ZeroText("");
    OneDigitText('1', ['/', '0']);
    ZeroText(['&', '&', '1', '/', '0']);
    assert ['0'] + "" == ['0'] && ['/'] + ['0'] == ['/', '0'] && ['1'] + ['/', '0'] == ['1', '/', '0'];
    assert ['&', '&'] + ['1', '/', '0'] == ['&', '&', '1', '/', '0'];
    assert ['0'] + ['&', '&', '1', '/', '0'] == ['0', '&', '&', '1', '/', '0'];
    assert one.Number? by { OneDigitIs('1'); }
    SignText(one, '/', Div, zero, "", ['0']);
    AndText(zero, Binary(one, "", Div, zero), ['1', '/', '0']);
    assert Spell(Infix(Literal(1), Div, Literal(0))) == Binary(one, "", Div, zero);
    assert Spell(Division()) == Binary(zero, "", And, Binary(one, "", Div, zero));
  }

  lemma {:induction false} AndText(l: Expr, r: Expr, text: string)
    requires Show(r, "") == text
    ensures Show(Binary(l, "", And, r), "") == Show(l, ['&', '&'] + text)
  {
    NothingBefore(['&', '&'] + text);
  }

  lemma {:induction false} OneIs()
    ensures Spell(Literal(1)) == OneDigit('1')
  {
    assert DecimalDigits(1) == DecimalDigits(0) + [DigitChar(1)] && DecimalDigits(1) == ['1'];
  }

  lemma {:induction false} ZeroText(rest: string)
    ensures Show(Spell(Literal(0)), rest) == ['0'] + rest
  {
    NothingBefore(rest);
    NothingBefore(['0'] + rest);
  }

  /** 0&&1/0 traps in the code, though C skips the division. */
  lemma {:induction false} SkippedDivisionTraps(w: World)
    requires w.long(0) == 0 && w.long(1) == 1 && w.arith(Div, 1, 0) == None
    ensures Show(Spell(Division()), "") == ['0', '&', '&', '1', '/', '0'] && ParseIf(Longs(w), ['0', '&', '&', '1', '/', '0']) == Trap
    ensures CMeaning(w, Division()) == Some(0)
  {
    hide ParseLevel, Show, Spell;
    DivisionText();
    NothingIsBlank();
    assert Meaning(Longs(w), Infix(Literal(1), Div, Literal(0))) == None;
    TreeRoundTrip(Longs(w), Division(), "");
  }
}
