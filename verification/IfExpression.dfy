/** The `#if` evaluator of makedepend's ifparser.c.

  A cursor is the rest of the line: the C code's `cp` points into a string that ends with a NUL,
  which here is the end of the sequence.  The twelve parse_* levels differ only in the operators they look
  for, so they are one function of the level: 0 for parse_value, 1 for parse_product, up to 11 for parse_cond.
  */
module IfExpression {

  datatype Option<T> = None | Some(value: T)

  datatype BinOp =
    | Mul | Div | Mod | Add | Sub | Shl | Shr
    | Lt | Le | Gt | Ge | Eq | LoneEq | Ne | BitAnd | BitXor | BitOr | And | Or   // LoneEq is =, which counts as ==

  datatype UnOp = Not | Neg | Compl

  /** What the parser computes with: the C code with longs.  It never looks at a value, so it could as well build trees,
      and then shows how it groups. */
  datatype Algebra<!V> = Algebra(
    binary: (BinOp, V, V) -> Option<V>,   // None when the machine's arithmetic traps
    unary: (UnOp, V) -> V,
    choose: (V, V, V) -> V,
    number: nat -> V,
    character: string -> V,
    defined: string -> V,
    variable: string -> V,
    asserted: (string, seq<string>) -> V,
    nothing: V)                           // what *valp is set to first

  /** Everything outside the parser: the arithmetic of a C long, strtol's clamping, the character constants, and the
      callbacks that look symbols up. */
  datatype World = World(
    arith: (BinOp, int, int) -> Option<int>,
    minus: int -> int,
    complement: int -> int,
    long: nat -> int,
    character: string -> int,
    defined: string -> bool,
    variable: string -> int)

  function Truth(b: bool): int { if b then 1 else 0 }

  /** a op b; comparisons and the logical operators do not depend on the machine.  Both operands are already
      values: && and || do not short-circuit here. */
  function Apply(w: World, op: BinOp, a: int, b: int): Option<int> {
    match op
    case Lt => Some(Truth(a < b))
    case Le => Some(Truth(a <= b))
    case Gt => Some(Truth(a > b))
    case Ge => Some(Truth(a >= b))
    case Eq => Some(Truth(a == b))
    case LoneEq => Some(Truth(a == b))
    case Ne => Some(Truth(a != b))
    case And => Some(Truth(a != 0 && b != 0))
    case Or => Some(Truth(a != 0 || b != 0))
    case _ => w.arith(op, a, b)
  }

  function ApplyUnary(w: World, op: UnOp, a: int): int {
    match op
    case Not => Truth(a == 0)
    case Neg => w.minus(a)
    case Compl => w.complement(a)
  }

  /** The C code. */
  function Longs(w: World): Algebra<int> {
    Algebra((op, a, b) => Apply(w, op, a, b), (op, a) => ApplyUnary(w, op, a), (c, a, b) => if c != 0 then a else b,
            w.long, w.character, name => Truth(w.defined(name)), w.variable, (name, answers) => 1, 0)
  }

  // ----- characters -----

  predicate IsSpace(c: char) { c == ' ' || '\t' <= c <= '\r' }
  predicate IsDigit(c: char) { '0' <= c <= '9' }
  predicate IsAlpha(c: char) { 'a' <= c <= 'z' || 'A' <= c <= 'Z' }
  predicate IsFirst(c: char) { IsAlpha(c) || c == '_' }
  predicate IsWord(c: char) { IsAlpha(c) || IsDigit(c) || c == '_' }
  predicate IsSuffix(c: char) { c == 'U' || c == 'u' || c == 'L' || c == 'l' }

  /** *cp == c */
  predicate At(cp: string, k: nat, c: char) {
    k < |cp| && cp[k] == c
  }

  predicate AllOf(p: char -> bool, t: string) {
    forall i :: 0 <= i < |t| ==> p(t[i])
  }

  predicate IsBlank(t: string) { AllOf(IsSpace, t) }

  predicate IsName(t: string) {
    t != "" && IsFirst(t[0]) && AllOf(IsWord, t)
  }

  predicate NotQuote(c: char) { c != '\'' }

  /** rest is what is left of cp behind the longest run of characters of the class. */
  predicate Behind(p: char -> bool, cp: string, rest: string) {
    |rest| <= |cp| && cp[|cp| - |rest|..] == rest && AllOf(p, cp[..|cp| - |rest|]) && (rest != "" ==> !p(rest[0]))
  }

  function Drop(p: char -> bool, cp: string): (rest: string)
    ensures Behind(p, cp, rest)
  {
    if cp != "" && p(cp[0]) then
      var rest := Drop(p, cp[1..]);
      assert cp[..|cp| - |rest|] == [cp[0]] + cp[1..][..|cp| - 1 - |rest|];
      rest
    else cp
  }

  /** SKIPSPACE */
  function Skip(cp: string): (rest: string)
    ensures Behind(IsSpace, cp, rest)
  {
    Drop(IsSpace, cp)
  }

  // ----- tokens -----

  datatype Radix = Decimal | Octal | Hexadecimal(x: char)   // x or X

  function Base(r: Radix): nat {
    match r case Decimal => 10 case Octal => 8 case Hexadecimal(_) => 16
  }

  function DigitValue(c: char): nat {
    if IsDigit(c) then (c - '0') as nat
    else if 'a' <= c <= 'f' then (c - 'a') as nat + 10
    else if 'A' <= c <= 'F' then (c - 'A') as nat + 10
    else 16
  }

  predicate IsDigitOf(c: char, base: nat) {
    DigitValue(c) < base
  }

  /** The digits at the head of cp, as strtol reads them. */
  function Digits(cp: string, base: nat, acc: nat): (r: (nat, string))
    ensures |r.1| <= |cp|
  {
    if cp != "" && IsDigitOf(cp[0], base) then Digits(cp[1..], base, acc * base + DigitValue(cp[0])) else (acc, cp)
  }

  /** strtol(cp, &cp, 0) on a text that starts with a digit, before clamping. */
  function Strtol(cp: string): (r: (nat, string))
    requires cp != "" && IsDigit(cp[0])
    ensures |r.1| < |cp|
  {
    if cp[0] != '0' then Digits(cp[1..], 10, DigitValue(cp[0]))
    else if (At(cp, 1, 'x') || At(cp, 1, 'X')) && |cp| > 2 && IsDigitOf(cp[2], 16) then Digits(cp[2..], 16, 0)
    else Digits(cp[1..], 8, 0)
  }

  datatype Parse<V> =
    | Value(v: V, rest: string)  // the cursor after the text read, and *valp
    | Fail(v: V)                 // NULL was returned after an error report, *valp being v
    | Trap                       // the arithmetic trapped, or an unclosed quote made the cursor leave the line

  datatype Name = Name(name: string, rest: string) | NoName

  /** parse_variable: white space, and then the longest name there is. */
  function ParseVariable(cp: string): (r: Name)
    ensures r.Name? ==> |r.rest| < |cp|
  {
    var at := Skip(cp);
    if at == "" || !IsFirst(at[0]) then NoName
    else
      var rest := Drop(IsWord, at[1..]);
      Name(at[..|at| - |rest|], rest)
  }

  lemma {:induction false} WholeName(at: string, rest: string)
    requires at != "" && IsFirst(at[0]) && Behind(IsWord, at[1..], rest)
    ensures IsName(at[..|at| - |rest|]) && at == at[..|at| - |rest|] + rest
  {
    var name := at[..|at| - |rest|];
    assert name == [at[0]] + at[1..][..|at| - 1 - |rest|];
    assert AllOf(IsWord, [at[0]]);
  }

  /** What parse_variable returns is the longest name behind the white space; without one it fails. */
  lemma {:induction false} LongestName(cp: string)
    ensures var r := ParseVariable(cp);
            if r.Name? then Skip(cp) == r.name + r.rest && IsName(r.name) && (r.rest != "" ==> !IsWord(r.rest[0]))
            else Skip(cp) == "" || !IsFirst(Skip(cp)[0])
  {
    hide IsName, AllOf, Skip;
    var at := Skip(cp);
    if at != "" && IsFirst(at[0]) {
      WholeName(at, Drop(IsWord, at[1..]));
    }
  }

  lemma {:induction false} SkipSplits(cp: string)
    ensures IsBlank(cp[..|cp| - |Skip(cp)|]) && cp == cp[..|cp| - |Skip(cp)|] + Skip(cp)
  {
  }

  /** parse_number */
  function ParseNumber<V>(w: Algebra<V>, cp: string): (r: Parse<V>)
    ensures r.Value? ==> |r.rest| < |cp| && (r.rest != "" ==> !IsSuffix(r.rest[0]))
  {
    var at := Skip(cp);
    if at == "" || !IsDigit(at[0]) then Fail(w.nothing)
    else
      var (n, rest) := Strtol(at);
      Value(w.number(n), Drop(IsSuffix, rest))
  }

  /** parse_character, and its closing quote. */
  function ParseCharacter<V>(w: Algebra<V>, cp: string): (r: Parse<V>)
    ensures r.Value? ==> |r.rest| < |cp|
  {
    var at := Skip(cp);
    var end := Drop(NotQuote, at);
    if end == "" then Trap else Value(w.character(at[..|at| - |end|]), end[1..])
  }

  /** The list after `# name (`: names, each after one separating character, up to the closing parenthesis. */
  function ParseAnswers(cp: string): (r: Option<(seq<string>, string)>)
    ensures r.Some? ==> |r.value.1| < |cp|
  {
    if cp == "" then None else
    match ParseVariable(cp[1..])
    case NoName => None
    case Name(name, rest) =>
      var at := Skip(rest);
      if at == "" then None
      else if at[0] == ')' then Some(([name], at[1..]))
      else match ParseAnswers(at)
        case None => None
        case Some((names, end)) => Some(([name] + names, end))
  }

  predicate IsDefined(cp: string) {
    |cp| >= 7 && cp[..7] == "defined" && !(|cp| > 7 && (IsAlpha(cp[7]) || IsDigit(cp[7])))
  }

  /** The operator `defined`, after its keyword. */
  function ParseDefined<V>(w: Algebra<V>, cp: string): (r: Parse<V>)
    ensures r.Value? ==> |r.rest| < |cp|
  {
    var at := Skip(cp);
    var paren := At(at, 0, '(');
    match ParseVariable(if paren then at[1..] else at)
    case NoName => Fail(w.nothing)
    case Name(name, rest) =>
      var after := Skip(rest);
      if paren && !At(after, 0, ')') then Fail(w.nothing)
      else Value(w.defined(name), if paren then after[1..] else after)
  }

  /** The operator parse_value applies to what follows this character. */
  function Prefix(c: char): Option<UnOp> {
    if c == '!' then Some(Not) else if c == '-' then Some(Neg) else if c == '~' then Some(Compl) else None
  }

  datatype Found = NoOp | Op(op: BinOp, len: nat) | Bad

  /** What the level's switch makes of the text at the cursor. */
  function OpAt(cp: string, level: nat): (f: Found)
    ensures f.Op? ==> 0 < f.len <= |cp|
  {
    if cp == "" then NoOp else
    var c := cp[0];
    match level
    case 1 => if c == '*' then Op(Mul, 1) else if c == '/' then Op(Div, 1) else if c == '%' then Op(Mod, 1) else NoOp
    case 2 => if c == '+' then Op(Add, 1) else if c == '-' then Op(Sub, 1) else NoOp
    case 3 => if c == '<' && At(cp, 1, '<') then Op(Shl, 2) else if c == '>' && At(cp, 1, '>') then Op(Shr, 2) else NoOp
    case 4 =>
      if c == '<' then (if At(cp, 1, '=') then Op(Le, 2) else Op(Lt, 1))
      else if c == '>' then (if At(cp, 1, '=') then Op(Ge, 2) else Op(Gt, 1))
      else NoOp
    case 5 =>
      if c == '=' then (if At(cp, 1, '=') then Op(Eq, 2) else Op(LoneEq, 1))
      else if c == '!' && At(cp, 1, '=') then Op(Ne, 2)
      else NoOp
    case 6 => if c == '&' && !At(cp, 1, '&') then Op(BitAnd, 1) else NoOp
    case 7 => if c == '^' then Op(BitXor, 1) else NoOp
    case 8 => if c == '|' && !At(cp, 1, '|') then Op(BitOr, 1) else NoOp
    case 9 => if c == '&' then (if At(cp, 1, '&') then Op(And, 2) else Bad) else NoOp
    case 10 => if c == '|' then (if At(cp, 1, '|') then Op(Or, 2) else Bad) else NoOp
    case _ => NoOp
  }

  // ----- the parser -----

  /** parse_value after an opening parenthesis and the expression r. */
  function ParenTail<V>(r: Parse<V>): (q: Parse<V>)
    ensures q.Value? ==> r.Value? && |q.rest| <= |r.rest|
  {
    if !r.Value? then r
    else if At(Skip(r.rest), 0, ')') then Value(r.v, Skip(r.rest)[1..])
    else Fail(r.v)
  }

  /** parse_value after a number sign and the name n. */
  function AssertionTail<V>(w: Algebra<V>, n: Name): (q: Parse<V>)
    ensures q.Value? ==> n.Name? && |q.rest| <= |n.rest|
  {
    if n.NoName? || !At(Skip(n.rest), 0, '(') then Fail(w.nothing)
    else match ParseAnswers(Skip(n.rest))
      case None => Fail(w.nothing)
      case Some((names, end)) => Value(w.asserted(n.name, names), end)
  }

  /** A number or a variable. */
  function ParseWord<V>(w: Algebra<V>, at: string): (q: Parse<V>)
    requires at != ""
    ensures q.Value? ==> |q.rest| <= |at|
  {
    if IsDigit(at[0]) then ParseNumber(w, at)
    else match ParseVariable(at)
      case NoName => Fail(w.nothing)
      case Name(name, rest) => Value(w.variable(name), rest)
  }

  function UnaryTail<V>(w: Algebra<V>, un: UnOp, r: Parse<V>): (q: Parse<V>)
    ensures q.Value? ==> r.Value? && q.rest == r.rest
  {
    if r.Value? then Value(w.unary(un, r.v), r.rest) else r
  }

  /** parse_value, past white space. */
  function ParseToken<V>(w: Algebra<V>, at: string): (r: Parse<V>)
    ensures r.Value? ==> |r.rest| <= |at|
    decreases |at|, 0
  {
    if at == "" then Value(w.nothing, at)
    else if at[0] == '(' then ParenTail(ParseLevel(w, at[1..], 11))
    else if Prefix(at[0]).Some? then UnaryTail(w, Prefix(at[0]).value, ParseValue(w, at[1..]))
    else if at[0] == '#' then AssertionTail(w, ParseVariable(at[1..]))
    else if at[0] == '\'' then ParseCharacter(w, at[1..])
    else if IsDefined(at) then ParseDefined(w, at[7..])
    else ParseWord(w, at)
  }

  /** parse_value */
  function ParseValue<V>(w: Algebra<V>, cp: string): (r: Parse<V>)
    ensures r.Value? ==> |r.rest| <= |cp|
    decreases |cp|, 1
  {
    ParseToken(w, Skip(cp))
  }

  /** What a binary level makes of its two operands: an error on the right leaves *valp at the left value. */
  function Combine<V>(w: Algebra<V>, op: BinOp, left: V, r: Parse<V>): (q: Parse<V>)
    ensures q.Value? ==> r.Value? && q.rest == r.rest
  {
    match r
    case Value(right, end) => (match w.binary(op, left, right) case None => Trap case Some(x) => Value(x, end))
    case Fail(_) => Fail(left)
    case Trap => Trap
  }

  /** parse_product (level 1) to parse_cond (level 11): operators of the level associate to the right, and
      both branches of ?: are evaluated. */
  function ParseLevel<V>(w: Algebra<V>, cp: string, level: nat): (r: Parse<V>)
    ensures r.Value? ==> |r.rest| <= |cp|
    decreases |cp|, level + 2
  {
    if level == 0 then ParseValue(w, cp) else
    var left := ParseLevel(w, cp, level - 1);
    if !left.Value? then left
    else if level == 11 then ParseQuestion(w, left.v, Skip(left.rest))
    else ParseOperator(w, left.v, Skip(left.rest), level)
  }

  /** A binary level after its left operand. */
  function ParseOperator<V>(w: Algebra<V>, v: V, at: string, level: nat): (r: Parse<V>)
    ensures r.Value? ==> |r.rest| <= |at|
    decreases |at|, level + 1
  {
    match OpAt(at, level)
    case NoOp => Value(v, at)
    case Bad => Fail(v)
    case Op(op, len) => Combine(w, op, v, ParseLevel(w, at[len..], level))
  }

  /** parse_cond after its condition. */
  function ParseQuestion<V>(w: Algebra<V>, v: V, at: string): (r: Parse<V>)
    ensures r.Value? ==> |r.rest| <= |at|
    decreases |at|, 12
  {
    if !At(at, 0, '?') then Value(v, at) else
    var yes := ParseLevel(w, at[1..], 11);
    match yes
    case Value(_, rest) =>
      if !At(Skip(rest), 0, ':') then Fail(v)
      else Choose(w, v, yes.v, ParseLevel(w, Skip(rest)[1..], 11))
    case Fail(_) => Fail(v)
    case Trap => Trap
  }

  function Choose<V>(w: Algebra<V>, v: V, yes: V, no: Parse<V>): (q: Parse<V>)
    ensures q.Value? ==> no.Value? && q.rest == no.rest
  {
    match no
    case Value(other, end) => Value(w.choose(v, yes, other), end)
    case Fail(_) => Fail(v)
    case Trap => Trap
  }

  /** ParseIfExpression */
  function ParseIf<V>(w: Algebra<V>, cp: string): Parse<V> {
    ParseLevel(w, cp, 11)
  }

  // ----- the scanning loops -----

  /** SKIPSPACE */
  method SkipSpaces(cp0: string) returns (cp: string)
    ensures Behind(IsSpace, cp0, cp) && cp == Skip(cp0)
  {
    cp := cp0;
    while cp != "" && IsSpace(cp[0])
      invariant Skip(cp) == Skip(cp0)
      decreases |cp|
    {
      cp := cp[1..];
    }
  }

  /** The loop of parse_variable. */
  method ReadVariable(cp0: string) returns (r: Name)
    ensures r == ParseVariable(cp0)
    ensures r.Name? ==> IsName(r.name) && (r.rest != "" ==> !IsWord(r.rest[0]))
    ensures r.Name? ==> Skip(cp0) == r.name + r.rest
  {
    hide IsName, AllOf, Behind, Skip;
    LongestName(cp0);
    var cp := SkipSpaces(cp0);
    if cp == "" || !IsFirst(cp[0]) { return NoName; }
    var start := cp;
    cp := cp[1..];
    while cp != "" && IsWord(cp[0])
      invariant |cp| < |start| && Drop(IsWord, cp) == Drop(IsWord, start[1..])
      decreases |cp|
    {
      cp := cp[1..];
    }
    r := Name(start[..|start| - |cp|], cp);
  }

  /** parse_number: strtol, and the loop over the qualifiers behind the number. */
  method ReadNumber<V>(w: Algebra<V>, cp0: string) returns (r: Parse<V>)
    ensures r == ParseNumber(w, cp0)
    ensures r.Value? <==> Skip(cp0) != "" && IsDigit(Skip(cp0)[0])
    ensures r.Value? ==> r.v == w.number(Strtol(Skip(cp0)).0) && Behind(IsSuffix, Strtol(Skip(cp0)).1, r.rest)
  {
    var cp := SkipSpaces(cp0);
    if cp == "" || !IsDigit(cp[0]) { return Fail(w.nothing); }
    var (n, rest) := Strtol(cp);
    cp := rest;
    while cp != "" && IsSuffix(cp[0])
      invariant Drop(IsSuffix, cp) == Drop(IsSuffix, rest)
      decreases |cp|
    {
      cp := cp[1..];
    }
    r := Value(w.number(n), cp);
  }

  /** The loop of parse_character, from behind the white space on; it has no test for the end of the line. */
  method ReadCharacter(at: string) returns (end: string)
    ensures Behind(NotQuote, at, end) && end == Drop(NotQuote, at)
  {
    end := at;
    while end != "" && end[0] != '\''
      invariant Drop(NotQuote, end) == Drop(NotQuote, at)
      decreases |end|
    {
      end := end[1..];
    }
  }

  /** The do-while loop over an assertion's list, from its opening parenthesis. */
  method ReadAnswers(cp0: string) returns (r: Option<(seq<string>, string)>)
    requires At(cp0, 0, '(')
    ensures r == ParseAnswers(cp0)
  {
    hide ParseAnswers, ParseVariable, Skip, Prepend, Behind, IsName;
    var cp, names, more := cp0, [], true;
    PrependNothing(ParseAnswers(cp0));
    while more
      invariant cp != ""
      invariant more ==> ParseAnswers(cp0) == Prepend(names, ParseAnswers(cp))
      invariant !more ==> cp[0] == ')' && ParseAnswers(cp0) == Some((names, cp[1..]))
      decreases more, |cp|
    {
      AnswersStep(names, cp);
      var n := ReadVariable(cp[1..]);
      if n.NoName? { return None; }
      var at := SkipSpaces(n.rest);
      if at == "" { return None; }
      cp, names, more := at, names + [n.name], at[0] != ')';
    }
    r := Some((names, cp[1..]));
  }

  function Prepend(names: seq<string>, r: Option<(seq<string>, string)>): Option<(seq<string>, string)> {
    match r case None => None case Some((more, end)) => Some((names + more, end))
  }

  lemma {:induction false} PrependNothing(r: Option<(seq<string>, string)>)
    ensures Prepend([], r) == r
  {
    if r.Some? {
      assert [] + r.value.0 == r.value.0;
    }
  }

  /** One round of the loop over the answers. */
  lemma {:induction false} AnswersStep(names: seq<string>, cp: string)
    requires cp != ""
    ensures var n := ParseVariable(cp[1..]);
            Prepend(names, ParseAnswers(cp)) ==
              if n.NoName? || Skip(n.rest) == "" then None
              else if Skip(n.rest)[0] == ')' then Some((names + [n.name], Skip(n.rest)[1..]))
              else Prepend(names + [n.name], ParseAnswers(Skip(n.rest)))
  {
    hide ParseVariable, Skip;
    var n := ParseVariable(cp[1..]);
    if n.Name? && Skip(n.rest) != "" && Skip(n.rest)[0] != ')' && ParseAnswers(Skip(n.rest)).Some? {
      var more := ParseAnswers(Skip(n.rest)).value.0;
      assert names + ([n.name] + more) == names + [n.name] + more;
    }
  }
}
