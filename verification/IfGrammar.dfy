/** The lines that makedepend's #if evaluator reads, as text with its layout, and what they are worth. */
module IfGrammar {
  import opened IfExpression

  /** An expression as written: every token with the white space in front of it (sp and its companions).  The grammar is
      the documented one with what the code reads besides: character constants, an absent operand at the end of the line,
      a single = for ==, `defined` immediately followed by an underscore, and any separator between answers. */
  datatype Expr =
    | Number(sp: string, radix: Radix, digits: string, suffix: string)
    | Character(sp: string, sp1: string, text: string)
    | Variable(sp: string, name: string)
    | Defined(sp: string, sp1: string, name: string)
    | DefinedParen(sp: string, sp1: string, sp2: string, name: string, sp3: string)
    | Assertion(sp: string, sp1: string, name: string, sp2: string, answers: seq<Answer>)
    | Absent(sp: string)
    | Paren(sp: string, e: Expr, sp1: string)
    | Unary(sp: string, un: UnOp, e: Expr)
    | Binary(left: Expr, sp: string, op: BinOp, right: Expr)
    | Conditional(cond: Expr, sp: string, yes: Expr, sp1: string, no: Expr)

  /** One name of an assertion's list, the space around it, and the character behind it. */
  datatype Answer = Answer(sp: string, name: string, sp1: string, sep: char)

  function Level(op: BinOp): (l: nat)
    ensures 1 <= l <= 10
  {
    match op
    case Mul => 1 case Div => 1 case Mod => 1
    case Add => 2 case Sub => 2
    case Shl => 3 case Shr => 3
    case Lt => 4 case Le => 4 case Gt => 4 case Ge => 4
    case Eq => 5 case LoneEq => 5 case Ne => 5
    case BitAnd => 6 case BitXor => 7 case BitOr => 8 case And => 9 case Or => 10
  }

  function Symbol(op: BinOp): (t: string)
    ensures 1 <= |t| <= 2
  {
    match op
    case Mul => "*" case Div => "/" case Mod => "%" case Add => "+" case Sub => "-"
    case Shl => "<<" case Shr => ">>" case Lt => "<" case Le => "<=" case Gt => ">" case Ge => ">="
    case Eq => "==" case LoneEq => "=" case Ne => "!=" case BitAnd => "&" case BitXor => "^" case BitOr => "|"
    case And => "&&" case Or => "||"
  }

  function UnarySymbol(un: UnOp): char {
    match un case Not => '!' case Neg => '-' case Compl => '~'
  }

  /** The level of the loosest operator outside all parentheses. */
  function Rank(e: Expr): (l: nat)
    ensures l <= 11
  {
    match e case Binary(_, _, op, _) => Level(op) case Conditional(_, _, _, _, _) => 11 case _ => 0
  }

  function PrefixText(r: Radix): string {
    match r case Decimal => "" case Octal => "0" case Hexadecimal(x) => ['0', x]
  }

  /** The answers and then `rest`. */
  function ShowAnswers(answers: seq<Answer>, rest: string): string {
    if answers == [] then rest
    else answers[0].sp + (answers[0].name + (answers[0].sp1 + ([answers[0].sep] + ShowAnswers(answers[1..], rest))))
  }

  function Names(answers: seq<Answer>): seq<string> {
    if answers == [] then [] else [answers[0].name] + Names(answers[1..])
  }

  /** The text of e, followed by `rest`. */
  function Show(e: Expr, rest: string): string {
    match e
    case Number(sp, radix, digits, suffix) => sp + (PrefixText(radix) + (digits + (suffix + rest)))
    case Character(sp, sp1, text) => sp + (['\''] + (sp1 + (text + (['\''] + rest))))
    case Variable(sp, name) => sp + (name + rest)
    case Defined(sp, sp1, name) => sp + ("defined" + (sp1 + (name + rest)))
    case DefinedParen(sp, sp1, sp2, name, sp3) => sp + ("defined" + (sp1 + (['('] + (sp2 + (name + (sp3 + ([')'] + rest)))))))
    case Assertion(sp, sp1, name, sp2, answers) => sp + (['#'] + (sp1 + (name + (sp2 + (['('] + ShowAnswers(answers, rest))))))
    case Absent(sp) => sp + rest
    case Paren(sp, x, sp1) => sp + (['('] + Show(x, sp1 + ([')'] + rest)))
    case Unary(sp, un, x) => sp + ([UnarySymbol(un)] + Show(x, rest))
    case Binary(l, sp, op, r) => Show(l, sp + (Symbol(op) + Show(r, rest)))
    case Conditional(c, sp, y, sp1, n) => Show(c, sp + (['?'] + Show(y, sp1 + ([':'] + Show(n, rest)))))
  }

  /** A name that parse_value does not take for the operator `defined`. */
  predicate IsPlainName(t: string) {
    IsName(t) && !(|t| >= 7 && t[..7] == "defined" && (|t| == 7 || t[7] == '_'))
  }

  predicate AllDigits(t: string, base: nat) {
    forall i :: 0 <= i < |t| ==> IsDigitOf(t[i], base)
  }

  predicate IsNumeral(radix: Radix, digits: string) {
    && AllDigits(digits, Base(radix))
    && match radix
       case Decimal => digits != "" && digits[0] != '0'
       case Octal => true
       case Hexadecimal(x) => digits != "" && (x == 'x' || x == 'X')
  }

  /** Names with separators between them, and the closing parenthesis behind the last. */
  predicate IsList(answers: seq<Answer>) {
    && answers != []
    && var a := answers[0];
       && IsBlank(a.sp) && IsName(a.name) && IsBlank(a.sp1) && !IsSpace(a.sep) && (IsWord(a.sep) ==> a.sp1 != "")
       && if |answers| == 1 then a.sep == ')' else a.sep != ')' && IsList(answers[1..])
  }

  /** The last operand is there. */
  predicate Complete(e: Expr) {
    match e
    case Absent(_) => false
    case Unary(_, _, x) => Complete(x)
    case Binary(_, _, _, r) => Complete(r)
    case Conditional(_, _, _, _, n) => Complete(n)
    case _ => true
  }

  /** e follows the grammar, its operands being no looser than their operator allows: on the left only tighter
      ones, on the right also equally tight ones. */
  predicate Fits(e: Expr) {
    match e
    case Number(sp, radix, digits, suffix) => IsBlank(sp) && IsNumeral(radix, digits) && AllOf(IsSuffix, suffix)
    case Character(sp, sp1, text) => IsBlank(sp) && IsBlank(sp1) && AllOf(NotQuote, text) && (text != "" ==> !IsSpace(text[0]))
    case Variable(sp, name) => IsBlank(sp) && IsPlainName(name)
    case Defined(sp, sp1, name) => IsBlank(sp) && IsBlank(sp1) && IsName(name) && (sp1 != "" || name[0] == '_')
    case DefinedParen(sp, sp1, sp2, name, sp3) => IsBlank(sp) && IsBlank(sp1) && IsBlank(sp2) && IsName(name) && IsBlank(sp3)
    case Assertion(sp, sp1, name, sp2, answers) => IsBlank(sp) && IsBlank(sp1) && IsName(name) && IsBlank(sp2) && IsList(answers)
    case Absent(sp) => IsBlank(sp)
    case Paren(sp, x, sp1) => IsBlank(sp) && Fits(x) && Complete(x) && IsBlank(sp1)
    case Unary(sp, un, x) => IsBlank(sp) && Fits(x) && Rank(x) == 0
    case Binary(l, sp, op, r) => Fits(l) && Complete(l) && Fits(r) && IsBlank(sp) && Rank(l) < Level(op) && Rank(r) <= Level(op)
    case Conditional(c, sp, y, sp1, n) =>
      Fits(c) && Complete(c) && Fits(y) && Complete(y) && Fits(n) && IsBlank(sp) && IsBlank(sp1) && Rank(c) <= 10
  }

  /** The digits and the suffix of a number end in front of `rest`. */
  predicate NumberEnds(radix: Radix, digits: string, suffix: string, rest: string) {
    && (rest != "" ==> !IsSuffix(rest[0]))
    && DigitsEnd(radix, digits, suffix + rest)
  }

  predicate DigitsEnd(radix: Radix, digits: string, tail: string) {
    tail != "" ==>
      && !IsDigitOf(tail[0], Base(radix))
      && !(radix.Octal? && digits == "" && (tail[0] == 'x' || tail[0] == 'X') && |tail| > 1 && IsDigitOf(tail[1], 16))
  }

  /** The last token of e ends in front of `rest`. */
  predicate Ends(e: Expr, rest: string) {
    match e
    case Number(_, radix, digits, suffix) => NumberEnds(radix, digits, suffix, rest)
    case Variable(_, _) => rest != "" ==> !IsWord(rest[0])
    case Defined(_, _, _) => rest != "" ==> !IsWord(rest[0])
    case Absent(_) => rest == ""
    case Unary(_, _, x) => Ends(x, rest)
    case Binary(_, _, _, r) => Ends(r, rest)
    case Conditional(_, _, _, _, n) => Ends(n, rest)
    case _ => true
  }

  /** The text at the cursor stops every level up to l. */
  predicate Stops(at: string, l: nat) {
    && (forall j :: 1 <= j <= l ==> OpAt(at, j) == NoOp)
    && (l == 11 ==> !At(at, 0, '?'))
  }

  /** Nothing in `rest` continues e, read at level l. */
  predicate Closed(e: Expr, rest: string, l: nat) {
    Ends(e, rest) && Stops(Skip(rest), l)
  }

  /** The number a digit string denotes. */
  function Denotes(digits: string, base: nat): nat {
    if digits == "" then 0 else Denotes(digits[..|digits| - 1], base) * base + DigitValue(digits[|digits| - 1])
  }

  /** The value of an expression; None if its arithmetic traps anywhere. */
  function Eval<V>(w: Algebra<V>, e: Expr): Option<V> {
    match e
    case Number(_, radix, digits, _) => Some(w.number(Denotes(digits, Base(radix))))
    case Character(_, _, text) => Some(w.character(text))
    case Variable(_, name) => Some(w.variable(name))
    case Defined(_, _, name) => Some(w.defined(name))
    case DefinedParen(_, _, _, name, _) => Some(w.defined(name))
    case Assertion(_, _, name, _, answers) => Some(w.asserted(name, Names(answers)))
    case Absent(_) => Some(w.nothing)
    case Paren(_, x, _) => Eval(w, x)
    case Unary(_, un, x) => (match Eval(w, x) case None => None case Some(v) => Some(w.unary(un, v)))
    case Binary(l, _, op, r) =>
      (match Eval(w, l)
       case None => None
       case Some(a) => match Eval(w, r) case None => None case Some(b) => w.binary(op, a, b))
    case Conditional(c, _, y, _, n) =>
      (match Eval(w, c)
       case None => None
       case Some(v) =>
         match Eval(w, y)
         case None => None
         case Some(a) => match Eval(w, n) case None => None case Some(b) => Some(w.choose(v, a, b)))
  }

  /** What the parser returns when it has read e and left the cursor at `end`. */
  function Answered<V>(w: Algebra<V>, e: Expr, end: string): Parse<V> {
    match Eval(w, e) case None => Trap case Some(v) => Value(v, end)
  }
}
