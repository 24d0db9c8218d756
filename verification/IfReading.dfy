/** What the #if evaluator accepts, and what it leaves behind when it does not. */
module IfReading {
  import opened IfExpression
  import opened IfGrammar
  import opened IfRoundTrip

  /** cp is the text of e and then `rest`; r is the value of e, with the cursor before or after the white space behind it. */
  ghost predicate Written<V>(w: Algebra<V>, cp: string, r: Parse<V>, e: Expr, rest: string) {
    && Fits(e) && cp == Show(e, rest) && Ends(e, rest)
    && r.Value? && Eval(w, e) == Some(r.v) && (r.rest == rest || r.rest == Skip(rest))
  }

  // ----- tokens -----

  /** The white space in front of the cursor. */
  function Lead(cp: string): (sp: string)
    ensures IsBlank(sp) && cp == sp + Skip(cp)
  {
    SkipSplits(cp);
    cp[..|cp| - |Skip(cp)|]
  }

  lemma {:induction false} DigitsSplit(cp: string, base: nat, acc: nat, done: string) returns (d: string, rest: string)
    requires acc == Denotes(done, base)
    ensures cp == d + rest && AllDigits(d, base) && (rest != "" ==> !IsDigitOf(rest[0], base))
    ensures Digits(cp, base, acc) == (Denotes(done + d, base), rest)
  {
    hide Denotes, DigitValue, IsDigitOf;
    if cp != "" && IsDigitOf(cp[0], base) {
      DenotesMore(done, cp[0], base);
      var d1;
      d1, rest := DigitsSplit(cp[1..], base, acc * base + DigitValue(cp[0]), done + [cp[0]]);
      d := [cp[0]] + d1;
      assert done + [cp[0]] + d1 == done + d;
    } else {
      d, rest := "", cp;
      assert done + d == done;
    }
  }

  lemma {:induction false} NoDigits()
    ensures forall base :: Denotes("", base) == 0
  {
  }

  lemma {:induction false} DecimalDigit(c: char)
    requires IsDigit(c)
    ensures IsDigitOf(c, 10)
  {
  }

  lemma {:induction false} StrtolSplit(cp: string) returns (radix: Radix, d: string, tail: string)
    requires cp != "" && IsDigit(cp[0])
    ensures IsNumeral(radix, d) && DigitsEnd(radix, d, tail) && cp == PrefixText(radix) + (d + tail)
    ensures Strtol(cp) == (Denotes(d, Base(radix)), tail)
  {
    hide Digits, Denotes, DigitValue, IsDigitOf;
    NoDigits();
    if cp[0] != '0' {
      DenotesMore("", cp[0], 10);
      assert "" + [cp[0]] == [cp[0]];
      DecimalDigit(cp[0]);
      var d1;
      d1, tail := DigitsSplit(cp[1..], 10, DigitValue(cp[0]), [cp[0]]);
      radix, d := Decimal, [cp[0]] + d1;
    } else if (At(cp, 1, 'x') || At(cp, 1, 'X')) && |cp| > 2 && IsDigitOf(cp[2], 16) {
      d, tail := DigitsSplit(cp[2..], 16, 0, "");
      radix := Hexadecimal(cp[1]);
      assert "" + d == d && cp == ['0', cp[1]] + cp[2..];
    } else {
      d, tail := DigitsSplit(cp[1..], 8, 0, "");
      radix := Octal;
      assert "" + d == d && cp == ['0'] + cp[1..];
      if d == "" { assert tail == cp[1..]; }
    }
  }

  lemma {:induction false} NumberSplit<V>(w: Algebra<V>, at: string) returns (radix: Radix, digits: string, suffix: string, rest: string)
    requires at != "" && IsDigit(at[0])
    ensures IsNumeral(radix, digits) && AllOf(IsSuffix, suffix) && NumberEnds(radix, digits, suffix, rest)
    ensures at == PrefixText(radix) + (digits + (suffix + rest)) && ParseNumber(w, at) == Value(w.number(Denotes(digits, Base(radix))), rest)
  {
    hide Strtol, Denotes, DigitsEnd, IsNumeral, PrefixText, Base, Skip;
    SkipNothing(at);
    var tail;
    radix, digits, tail := StrtolSplit(at);
    rest := Drop(IsSuffix, tail);
    suffix := tail[..|tail| - |rest|];
    assert tail == suffix + rest;
  }

  lemma {:induction false} NumberWritten<V>(w: Algebra<V>, cp: string) returns (e: Expr, rest: string)
    requires Skip(cp) != "" && IsDigit(Skip(cp)[0])
    ensures Written(w, cp, ParseNumber(w, Skip(cp)), e, rest) && Rank(e) == 0
  {
    hide Lead, NumberEnds, IsNumeral, PrefixText, Base, Skip, AllOf, Denotes, ParseNumber;
    var radix, digits, suffix;
    radix, digits, suffix, rest := NumberSplit(w, Skip(cp));
    e := Number(Lead(cp), radix, digits, suffix);
  }

  lemma {:induction false} BehindSplits(p: char -> bool, cp: string, rest: string)
    requires Behind(p, cp, rest)
    ensures cp == cp[..|cp| - |rest|] + rest && AllOf(p, cp[..|cp| - |rest|]) && (rest != "" ==> !p(rest[0]))
  {
    hide AllOf;
  }

  /** The text up to the closing quote. */
  lemma {:induction false} QuoteSplits(at: string) returns (text: string, rest: string)
    requires Drop(NotQuote, at) != ""
    ensures at == text + (['\''] + rest) && AllOf(NotQuote, text) && Drop(NotQuote, at) == ['\''] + rest
    ensures at[..|at| - |Drop(NotQuote, at)|] == text && Drop(NotQuote, at)[1..] == rest
  {
    hide AllOf, Drop, Behind;
    var end := Drop(NotQuote, at);
    BehindSplits(NotQuote, at, end);
    text, rest := at[..|at| - |end|], end[1..];
    assert end == ['\''] + rest;
  }

  lemma {:induction false} CharacterWritten<V>(w: Algebra<V>, cp: string) returns (e: Expr, rest: string)
    requires At(Skip(cp), 0, '\'') && ParseCharacter(w, Skip(cp)[1..]).Value?
    ensures Written(w, cp, ParseCharacter(w, Skip(cp)[1..]), e, rest) && Rank(e) == 0
  {
    hide Skip, AllOf, Drop, Behind, IsSpace;
    var t := Skip(cp)[1..];
    var text;
    text, rest := QuoteSplits(Skip(t));
    assert Skip(cp) == ['\''] + t;
    if text != "" { NoSpace(t, text); }
    e := Character(Lead(cp), Lead(t), text);
  }

  lemma {:induction false} NoSpace(t: string, text: string)
    requires text <= Skip(t) && text != ""
    ensures !IsSpace(text[0])
  {
    assert text[0] == Skip(t)[0];
  }

  /** A name behind white space. */
  lemma {:induction false} NameWritten(cp: string)
    requires ParseVariable(cp).Name?
    ensures var n := ParseVariable(cp); IsName(n.name) && EndsWord(n.rest) && cp == Lead(cp) + (n.name + n.rest)
  {
    hide IsName, Skip;
    LongestName(cp);
  }

  lemma {:induction false} PlainName(name: string, rest: string)
    requires IsName(name) && EndsWord(rest) && !IsDefined(name + rest)
    ensures IsPlainName(name)
  {
    var t := name + rest;
    if |name| >= 7 && name[..7] == "defined" {
      assert t[..7] == name[..7];
      if |name| > 7 { assert t[7] == name[7]; }
    }
  }

  lemma {:induction false} VariableWritten<V>(w: Algebra<V>, cp: string) returns (e: Expr, rest: string)
    requires Skip(cp) != "" && !IsDigit(Skip(cp)[0]) && !IsDefined(Skip(cp)) && ParseWord(w, Skip(cp)).Value?
    ensures Written(w, cp, ParseWord(w, Skip(cp)), e, rest) && Rank(e) == 0
  {
    hide Skip, IsName, IsDefined, ParseVariable, EndsWord, AllOf;
    var at := Skip(cp);
    SkipTwice(cp);
    NameWritten(at);
    assert Lead(at) + at == at;
    var n := ParseVariable(at);
    PlainName(n.name, n.rest);
    e, rest := Variable(Lead(cp), n.name), n.rest;
    VariableEnds(Lead(cp), "", n.name, rest);
  }

  lemma {:induction false} VariableEnds(sp: string, sp1: string, name: string, rest: string)
    requires EndsWord(rest)
    ensures Ends(Variable(sp, name), rest) && Ends(Defined(sp, sp1, name), rest)
  {
  }

  lemma {:induction false} KeywordSplits(at: string)
    requires IsDefined(at)
    ensures at == "defined" + at[7..] && (at[7..] != "" ==> !IsAlpha(at[7..][0]) && !IsDigit(at[7..][0]))
  {
  }

  lemma {:induction false} DefinedParenValue<V>(w: Algebra<V>, t: string, inner: string, name: string, r: string, rest: string)
    requires Skip(t) == ['('] + inner && ParseVariable(inner) == Name(name, r) && Skip(r) == [')'] + rest
    ensures ParseDefined(w, t) == Value(w.defined(name), rest)
  {
    hide Skip, ParseVariable;
    assert (['('] + inner)[1..] == inner && ([')'] + rest)[1..] == rest;
  }

  lemma {:induction false} DefinedParenIs<V>(w: Algebra<V>, sp: string, sp1: string, sp2: string, name: string, sp3: string, rest: string)
    requires IsBlank(sp) && IsBlank(sp1) && IsBlank(sp2) && IsName(name) && IsBlank(sp3)
    ensures Written(w, sp + ("defined" + (sp1 + (['('] + (sp2 + (name + (sp3 + ([')'] + rest))))))), Value(w.defined(name), rest),
                    DefinedParen(sp, sp1, sp2, name, sp3), rest)
  {
    hide Skip, IsName, IsBlank;
  }

  lemma {:induction false} DefinedParenWritten<V>(w: Algebra<V>, cp: string, t: string) returns (e: Expr, rest: string)
    requires Skip(cp) == "defined" + t && At(Skip(t), 0, '(') && ParseDefined(w, t).Value?
    ensures Written(w, cp, ParseDefined(w, t), e, rest) && Rank(e) == 0
  {
    hide Lead, Skip, IsName, ParseVariable, EndsWord, AllOf, Written, ParseDefined;
    var inner, name, r;
    inner, name, r, rest := DefinedParenParts(w, t);
    var sp, sp1, sp2, sp3 := Lead(cp), Lead(t), Lead(inner), Lead(r);
    assert r == sp3 + ([')'] + rest);
    assert inner == sp2 + (name + r);
    assert t == sp1 + (['('] + inner);
    assert cp == sp + ("defined" + t);
    DefinedParenValue(w, t, inner, name, r, rest);
    DefinedParenIs(w, sp, sp1, sp2, name, sp3, rest);
    e := DefinedParen(sp, sp1, sp2, name, sp3);
  }

  lemma {:induction false} DefinedParenParts<V>(w: Algebra<V>, t: string) returns (inner: string, name: string, r: string, rest: string)
    requires At(Skip(t), 0, '(') && ParseDefined(w, t).Value?
    ensures Skip(t) == ['('] + inner && ParseVariable(inner) == Name(name, r) && Skip(r) == [')'] + rest
    ensures IsName(name) && EndsWord(r) && inner == Lead(inner) + (name + r)
  {
    hide Lead, Skip, IsName, ParseVariable, EndsWord, AllOf, ParseDefined;
    inner := Skip(t)[1..];
    DefinedParenCloses(w, t);
    NameWritten(inner);
    name, r := ParseVariable(inner).name, ParseVariable(inner).rest;
    rest := Skip(r)[1..];
    FirstOf(Skip(t));
    FirstOf(Skip(r));
  }

  lemma {:induction false} DefinedParenCloses<V>(w: Algebra<V>, t: string)
    requires At(Skip(t), 0, '(') && ParseDefined(w, t).Value?
    ensures var n := ParseVariable(Skip(t)[1..]); n.Name? && At(Skip(n.rest), 0, ')')
  {
    hide Skip, ParseVariable;
  }

  lemma {:induction false} FirstOf(t: string)
    ensures t != "" ==> t == [t[0]] + t[1..]
  {
  }

  lemma {:induction false} DefinedNameIs<V>(w: Algebra<V>, sp: string, sp1: string, name: string, rest: string)
    requires IsBlank(sp) && IsBlank(sp1) && IsName(name) && EndsWord(rest) && (sp1 != "" || name[0] == '_')
    ensures Written(w, sp + ("defined" + (sp1 + (name + rest))), Value(w.defined(name), Skip(rest)), Defined(sp, sp1, name), rest)
  {
    hide Skip, IsName, AllOf, EndsWord, Ends;
    NameIsThere(name);
    VariableEnds(sp, sp1, name, rest);
  }

  lemma {:induction false} DefinedNameWritten<V>(w: Algebra<V>, cp: string, t: string) returns (e: Expr, rest: string)
    requires Skip(cp) == "defined" + t && !At(Skip(t), 0, '(') && ParseDefined(w, t).Value?
    requires t != "" ==> !IsAlpha(t[0]) && !IsDigit(t[0])
    ensures Written(w, cp, ParseDefined(w, t), e, rest) && Rank(e) == 0
  {
    hide Lead, Skip, IsName, ParseVariable, EndsWord, AllOf, IsAlpha, IsDigit, Ends, Written, ParseDefined;
    SkipTwice(t);
    DefinedNameThere(w, t);
    var name;
    name, rest := NameAtHand(Skip(t));
    DefinedName(w, t, name, rest);
    NameIsThere(name);
    var sp, sp1 := Lead(cp), Lead(t);
    assert t == sp1 + (name + rest);
    assert cp == sp + ("defined" + t);
    if sp1 == "" { Underscore(t, name, rest); }
    DefinedNameIs(w, sp, sp1, name, rest);
    e := Defined(sp, sp1, name);
  }

  lemma {:induction false} DefinedNameThere<V>(w: Algebra<V>, t: string)
    requires !At(Skip(t), 0, '(') && ParseDefined(w, t).Value?
    ensures ParseVariable(Skip(t)).Name?
  {
    hide Skip, ParseVariable;
  }

  lemma {:induction false} NameAtHand(at: string) returns (name: string, rest: string)
    requires Skip(at) == at && ParseVariable(at).Name?
    ensures ParseVariable(at) == Name(name, rest) && IsName(name) && EndsWord(rest) && at == name + rest
  {
    hide IsName, ParseVariable, EndsWord, AllOf;
    LongestName(at);
    var n := ParseVariable(at);
    name, rest := n.name, n.rest;
    assert EndsWord(rest) by { EndsMeans(rest); }
  }

  lemma {:induction false} EndsMeans(rest: string)
    ensures EndsWord(rest) <==> (rest != "" ==> !IsWord(rest[0]))
  {
  }

  lemma {:induction false} NameIsThere(name: string)
    requires IsName(name)
    ensures name != ""
  {
  }

  lemma {:induction false} DefinedWritten<V>(w: Algebra<V>, cp: string) returns (e: Expr, rest: string)
    requires IsDefined(Skip(cp)) && ParseDefined(w, Skip(cp)[7..]).Value?
    ensures Written(w, cp, ParseDefined(w, Skip(cp)[7..]), e, rest) && Rank(e) == 0
  {
    hide Skip, IsDefined, ParseDefined, Written;
    KeywordSplits(Skip(cp));
    var t := Skip(cp)[7..];
    if At(Skip(t), 0, '(') {
      e, rest := DefinedParenWritten(w, cp, t);
    } else {
      e, rest := DefinedNameWritten(w, cp, t);
    }
  }

  lemma {:induction false} Underscore(t: string, name: string, rest: string)
    requires IsName(name) && t == "" + (name + rest) && !IsAlpha(t[0]) && !IsDigit(t[0])
    ensures name[0] == '_'
  {
    assert t[0] == name[0];
  }

  lemma {:induction false} AnswersWritten(cp: string) returns (answers: seq<Answer>)
    requires cp != "" && ParseAnswers(cp).Some?
    ensures var (names, end) := ParseAnswers(cp).value;
            IsList(answers) && cp[1..] == ShowAnswers(answers, end) && Names(answers) == names
    decreases |cp|
  {
    hide Skip, IsName, ParseVariable, IsBlank;
    NameWritten(cp[1..]);
    var n := ParseVariable(cp[1..]);
    var at := Skip(n.rest);
    var a := Answer(Lead(cp[1..]), n.name, Lead(n.rest), at[0]);
    assert at == [at[0]] + at[1..];
    SeparatorFits(n.rest);
    if at[0] == ')' {
      answers := [a];
      assert answers[1..] == [];
      assert ShowAnswers(answers[1..], at[1..]) == at[1..];
      assert Names(answers) == [n.name] + Names(answers[1..]);
    } else {
      var more := AnswersWritten(at);
      answers := [a] + more;
      assert answers[1..] == more;
    }
  }

  lemma {:induction false} SeparatorFits(rest: string)
    requires EndsWord(rest) && Skip(rest) != ""
    ensures !IsSpace(Skip(rest)[0]) && (IsWord(Skip(rest)[0]) ==> Lead(rest) != "")
  {
    if Lead(rest) == "" { assert Lead(rest) + Skip(rest) == Skip(rest); }
  }

  lemma {:induction false} AssertionWritten<V>(w: Algebra<V>, cp: string) returns (e: Expr, rest: string)
    requires At(Skip(cp), 0, '#') && AssertionTail(w, ParseVariable(Skip(cp)[1..])).Value?
    ensures Written(w, cp, AssertionTail(w, ParseVariable(Skip(cp)[1..])), e, rest) && Rank(e) == 0
  {
    hide Skip, IsName, ParseVariable, EndsWord, ParseAnswers, AllOf, IsList;
    var t := Skip(cp)[1..];
    NameWritten(t);
    var n := ParseVariable(t);
    var open := Skip(n.rest);
    var answers := AnswersWritten(open);
    rest := ParseAnswers(open).value.1;
    assert Skip(cp) == ['#'] + t && open == ['('] + open[1..];
    e := Assertion(Lead(cp), Lead(t), n.name, Lead(n.rest), answers);
  }

  // ----- values and levels -----

  /** An absent operand can only stand at the end. */
  lemma {:induction false} IncompleteEnds(e: Expr, rest: string)
    requires Ends(e, rest) && rest != ""
    ensures Complete(e)
  {
    match e
    case Unary(_, _, x) => IncompleteEnds(x, rest);
    case Binary(_, _, _, r) => IncompleteEnds(r, rest);
    case Conditional(_, _, _, _, n) => IncompleteEnds(n, rest);
    case _ =>
  }

  /** The operator found stands at the cursor, and belongs to the level. */
  lemma {:induction false} OperatorStands(at: string, l: nat)
    requires OpAt(at, l).Op?
    ensures var o := OpAt(at, l);
            Level(o.op) == l && |Symbol(o.op)| == o.len && at == Symbol(o.op) + at[o.len..]
  {
    var o := OpAt(at, l);
    assert at == at[..o.len] + at[o.len..];
    if o.len == 1 { assert at[..1] == [at[0]]; } else { assert at[..2] == [at[0], at[1]]; }
  }

  lemma {:induction false} TokenWritten<V>(w: Algebra<V>, cp: string) returns (e: Expr, rest: string)
    requires ParseValue(w, cp).Value?
    requires Skip(cp) != "" ==> Skip(cp)[0] != '(' && Prefix(Skip(cp)[0]).None?
    ensures Written(w, cp, ParseValue(w, cp), e, rest) && Rank(e) == 0
  {
    hide Skip, ParseLevel, ParseNumber, ParseCharacter, ParseVariable, ParseDefined, AssertionTail, IsDefined, Show, Ends, Fits, Eval;
    var at := Skip(cp);
    if at == "" {
      e, rest := Absent(Lead(cp)), "";
      AbsentWritten(w, cp);
    } else if at[0] == '#' {
      e, rest := AssertionWritten(w, cp);
    } else if at[0] == '\'' {
      e, rest := CharacterWritten(w, cp);
    } else if IsDefined(at) {
      e, rest := DefinedWritten(w, cp);
    } else if IsDigit(at[0]) {
      e, rest := NumberWritten(w, cp);
    } else {
      e, rest := VariableWritten(w, cp);
    }
  }

  lemma {:induction false} AbsentWritten<V>(w: Algebra<V>, cp: string)
    requires Skip(cp) == ""
    ensures Written(w, cp, ParseValue(w, cp), Absent(Lead(cp)), "")
  {
    hide Skip;
  }

  /** Whatever parse_value accepts is the text of a value of the grammar. */
  lemma {:induction false} ValueWritten<V>(w: Algebra<V>, cp: string) returns (e: Expr, rest: string)
    requires ParseValue(w, cp).Value?
    ensures Written(w, cp, ParseValue(w, cp), e, rest) && Rank(e) == 0
    decreases |cp|, 1
  {
    hide ParseLevel, ParseValue, Written, Skip;
    var at := Skip(cp);
    if at != "" && at[0] == '(' {
      ParenText(w, Lead(cp), at[1..]);
      assert at == ['('] + at[1..];
      var x, r1 := LevelWritten(w, at[1..], 11);
      e, rest := ParenWritten(w, cp, x, r1);
    } else if at != "" && Prefix(at[0]).Some? {
      var un := Prefix(at[0]).value;
      assert at == [UnarySymbol(un)] + at[1..];
      UnaryText(w, Lead(cp), un, at[1..]);
      var x;
      x, rest := ValueWritten(w, at[1..]);
      e := Unary(Lead(cp), un, x);
      UnaryWritten(w, cp, un, x, rest);
    } else {
      e, rest := TokenWritten(w, cp);
    }
  }

  lemma {:induction false} UnaryWritten<V>(w: Algebra<V>, cp: string, un: UnOp, x: Expr, rest: string)
    requires Skip(cp) != "" && Skip(cp) == [UnarySymbol(un)] + Skip(cp)[1..]
    requires Written(w, Skip(cp)[1..], ParseValue(w, Skip(cp)[1..]), x, rest) && Rank(x) == 0
    ensures Written(w, cp, ParseValue(w, cp), Unary(Lead(cp), un, x), rest)
  {
    hide ParseValue, Skip, Rank;
    UnaryText(w, Lead(cp), un, Skip(cp)[1..]);
  }

  lemma {:induction false} ParenIs<V>(w: Algebra<V>, sp: string, x: Expr, inner: string, r1: string, sp1: string, rest: string, v: V)
    requires IsBlank(sp) && IsBlank(sp1) && Fits(x) && Ends(x, r1) && inner == Show(x, r1) && r1 == sp1 + ([')'] + rest) && Eval(w, x) == Some(v)
    ensures Written(w, sp + (['('] + inner), Value(v, rest), Paren(sp, x, sp1), rest)
  {
    hide Skip, IsBlank, Complete;
    IncompleteEnds(x, r1);
  }

  lemma {:induction false} ParenWritten<V>(w: Algebra<V>, cp: string, x: Expr, r1: string) returns (e: Expr, rest: string)
    requires At(Skip(cp), 0, '(') && ParseValue(w, cp).Value?
    requires Written(w, Skip(cp)[1..], ParseLevel(w, Skip(cp)[1..], 11), x, r1)
    ensures Written(w, cp, ParseValue(w, cp), e, rest) && Rank(e) == 0
  {
    hide ParseValue, ParseLevel, Lead, Skip, IsBlank, Fits, Show, Ends, Eval;
    var inner := Skip(cp)[1..];
    assert Skip(cp) == ['('] + inner;
    ParenText(w, Lead(cp), inner);
    SkipTwice(r1);
    rest := Skip(r1)[1..];
    assert Skip(r1) == [')'] + rest;
    ParenIs(w, Lead(cp), x, inner, r1, Lead(r1), rest, ParseValue(w, cp).v);
    e := Paren(Lead(cp), x, Lead(r1));
  }

  /** Whatever a level accepts is the text of an expression of that level, and nothing behind it goes on. */
  lemma {:induction false} LevelWritten<V>(w: Algebra<V>, cp: string, l: nat) returns (e: Expr, rest: string)
    requires 1 <= l <= 11 && ParseLevel(w, cp, l).Value?
    ensures Written(w, cp, ParseLevel(w, cp, l), e, rest) && Rank(e) <= l
    ensures ParseLevel(w, cp, l).rest == Skip(rest) && Stops(Skip(rest), l)
    decreases |cp|, l + 2, 1
  {
    hide ParseLevel, ParseValue, ParseOperator, ParseQuestion, Written, Skip, Stops;
    if l == 11 { ConditionLevel(w, cp); } else { OperatorLevel(w, cp, l); }
    var x, r1 := OperandWritten(w, cp, l - 1);
    Shorter(w, cp, l - 1, x, r1);
    if l == 11 {
      e, rest := ConditionWritten(w, cp, x, r1);
    } else {
      e, rest := OperationWritten(w, cp, x, r1, l);
    }
  }

  lemma {:induction false} OperandWritten<V>(w: Algebra<V>, cp: string, l: nat) returns (e: Expr, rest: string)
    requires l <= 10 && ParseLevel(w, cp, l).Value?
    ensures Written(w, cp, ParseLevel(w, cp, l), e, rest) && Rank(e) <= l && Stops(Skip(rest), l)
    decreases |cp|, l + 2, 2
  {
    hide ParseLevel, ParseValue, Written, Skip;
    if l == 0 {
      LevelZero(w, cp);
      e, rest := ValueWritten(w, cp);
    } else {
      e, rest := LevelWritten(w, cp, l);
    }
  }

  /** The cursor has not gone back. */
  lemma {:induction false} Shorter<V>(w: Algebra<V>, cp: string, l: nat, e: Expr, rest: string)
    requires Written(w, cp, ParseLevel(w, cp, l), e, rest)
    ensures Skip(ParseLevel(w, cp, l).rest) == Skip(rest) && |Skip(rest)| <= |cp|
  {
    hide ParseLevel, Skip, Show, Fits, Ends, Eval;
    SkipTwice(rest);
    assert |Skip(ParseLevel(w, cp, l).rest)| <= |ParseLevel(w, cp, l).rest|;
  }

  lemma {:induction false} OperationWritten<V>(w: Algebra<V>, cp: string, x: Expr, r1: string, l: nat) returns (e: Expr, rest: string)
    requires 1 <= l <= 10 && ParseLevel(w, cp, l - 1).Value? && ParseLevel(w, cp, l).Value?
    requires Written(w, cp, ParseLevel(w, cp, l - 1), x, r1) && Rank(x) <= l - 1 && Stops(Skip(r1), l - 1)
    requires |Skip(r1)| <= |cp| && ParseLevel(w, cp, l) == ParseOperator(w, ParseLevel(w, cp, l - 1).v, Skip(r1), l)
    ensures Written(w, cp, ParseLevel(w, cp, l), e, rest) && Rank(e) <= l
    ensures ParseLevel(w, cp, l).rest == Skip(rest) && Stops(Skip(rest), l)
    decreases |cp|, l + 2, 0
  {
    hide ParseLevel, ParseValue, Written, Skip, OpAt, Symbol, Level, Lead;
    var at := Skip(r1);
    match OpAt(at, l) {
      case NoOp =>
        e, rest := x, r1;
        SamePlace(w, cp, x, r1, l);
      case Op(op, len) =>
        OperatorStands(at, l);
        var y;
        y, rest := LevelWritten(w, at[len..], l);
        e := Binary(x, Lead(r1), op, y);
        BinaryWritten(w, cp, x, r1, op, y, rest);
      case Bad =>
    }
  }

  lemma {:induction false} SamePlace<V>(w: Algebra<V>, cp: string, x: Expr, r1: string, l: nat)
    requires l > 0 && Written(w, cp, ParseLevel(w, cp, l - 1), x, r1)
    requires ParseLevel(w, cp, l) == Value(ParseLevel(w, cp, l - 1).v, Skip(r1))
    ensures Written(w, cp, ParseLevel(w, cp, l), x, r1)
  {
    hide ParseLevel, Skip, Show, Fits, Ends, Eval;
  }

  lemma {:induction false} BinaryWritten<V>(w: Algebra<V>, cp: string, x: Expr, r1: string, op: BinOp, y: Expr, rest: string)
    requires var l, t := Level(op), Skip(r1);
             && ParseLevel(w, cp, l - 1).Value? && Written(w, cp, ParseLevel(w, cp, l - 1), x, r1) && Rank(x) < l
             && |Symbol(op)| <= |t| && t == Symbol(op) + t[|Symbol(op)|..]
             && Written(w, t[|Symbol(op)|..], ParseLevel(w, t[|Symbol(op)|..], l), y, rest) && Rank(y) <= l
             && ParseLevel(w, cp, l) == Combine(w, op, ParseLevel(w, cp, l - 1).v, ParseLevel(w, t[|Symbol(op)|..], l))
             && ParseLevel(w, cp, l).Value?
    ensures Written(w, cp, ParseLevel(w, cp, Level(op)), Binary(x, Lead(r1), op, y), rest)
  {
    hide ParseLevel, Skip, Symbol, Complete, Level;
    IncompleteEnds(x, r1);
  }

  lemma {:induction false} ConditionWritten<V>(w: Algebra<V>, cp: string, c: Expr, r1: string) returns (e: Expr, rest: string)
    requires ParseLevel(w, cp, 10).Value? && ParseLevel(w, cp, 11).Value?
    requires Written(w, cp, ParseLevel(w, cp, 10), c, r1) && Rank(c) <= 10 && Stops(Skip(r1), 10)
    requires |Skip(r1)| <= |cp| && ParseLevel(w, cp, 11) == ParseQuestion(w, ParseLevel(w, cp, 10).v, Skip(r1))
    ensures Written(w, cp, ParseLevel(w, cp, 11), e, rest)
    ensures ParseLevel(w, cp, 11).rest == Skip(rest) && Stops(Skip(rest), 11)
    decreases |cp|, 13, 0
  {
    hide ParseLevel, ParseValue, Written, Skip, OpAt;
    var at := Skip(r1);
    if !At(at, 0, '?') {
      e, rest := c, r1;
      SamePlace(w, cp, c, r1, 11);
      LastLevel(at);
    } else {
      var y, r2 := LevelWritten(w, at[1..], 11);
      Shorter(w, at[1..], 11, y, r2);
      SkipTwice(r2);
      var n;
      n, rest := LevelWritten(w, Skip(r2)[1..], 11);
      e := Conditional(c, Lead(r1), y, Lead(r2), n);
      ConditionalWritten(w, cp, c, r1, y, r2, n, rest);
    }
  }

  lemma {:induction false} LastLevel(at: string)
    requires Stops(at, 10) && !At(at, 0, '?')
    ensures Stops(at, 11)
  {
  }

  lemma {:induction false} ConditionalText(cp: string, c: Expr, r1: string, y: Expr, r2: string, n: Expr, rest: string)
    requires At(Skip(r1), 0, '?') && At(Skip(r2), 0, ':')
    requires cp == Show(c, r1) && Skip(r1)[1..] == Show(y, r2) && Skip(r2)[1..] == Show(n, rest)
    ensures cp == Show(Conditional(c, Lead(r1), y, Lead(r2), n), rest)
  {
    hide Skip, Lead, AllOf;
    assert Skip(r1) == ['?'] + Skip(r1)[1..] && Skip(r2) == [':'] + Skip(r2)[1..];
  }

  lemma {:induction false} ConditionalFits(c: Expr, r1: string, y: Expr, r2: string, n: Expr, rest: string)
    requires Fits(c) && Fits(y) && Fits(n) && Ends(c, r1) && Ends(y, r2) && Ends(n, rest) && Rank(c) <= 10 && r1 != "" && r2 != ""
    ensures Fits(Conditional(c, Lead(r1), y, Lead(r2), n)) && Ends(Conditional(c, Lead(r1), y, Lead(r2), n), rest)
  {
    hide Lead, Complete, AllOf;
    IncompleteEnds(c, r1);
    IncompleteEnds(y, r2);
  }

  lemma {:induction false} ConditionalValue<V>(w: Algebra<V>, c: Expr, sp: string, y: Expr, sp1: string, n: Expr)
    requires Eval(w, c).Some? && Eval(w, y).Some? && Eval(w, n).Some?
    ensures Eval(w, Conditional(c, sp, y, sp1, n)) == Some(w.choose(Eval(w, c).value, Eval(w, y).value, Eval(w, n).value))
  {
  }

  lemma {:induction false} ConditionalWritten<V>(w: Algebra<V>, cp: string, c: Expr, r1: string, y: Expr, r2: string, n: Expr, rest: string)
    requires At(Skip(r1), 0, '?') && At(Skip(r2), 0, ':')
    requires Written(w, cp, ParseLevel(w, cp, 10), c, r1) && Rank(c) <= 10
    requires Written(w, Skip(r1)[1..], ParseLevel(w, Skip(r1)[1..], 11), y, r2)
    requires Written(w, Skip(r2)[1..], ParseLevel(w, Skip(r2)[1..], 11), n, rest)
    requires ParseLevel(w, cp, 11) == Choose(w, ParseLevel(w, cp, 10).v, ParseLevel(w, Skip(r1)[1..], 11).v, ParseLevel(w, Skip(r2)[1..], 11))
    ensures Written(w, cp, ParseLevel(w, cp, 11), Conditional(c, Lead(r1), y, Lead(r2), n), rest)
  {
    hide ParseLevel, Skip, Show, Fits, Ends, Lead, Eval;
    ConditionalText(cp, c, r1, y, r2, n, rest);
    ConditionalValue(w, c, Lead(r1), y, Lead(r2), n);
    ConditionalFits(c, r1, y, r2, n, rest);
  }

  // ----- exactly the grammar -----

  /** What a level accepts, how far it reads and the value it returns are exactly what the grammar says: the text is an
      expression of the level, and nothing behind it goes on. */
  lemma {:induction false} AcceptsExactly<V>(w: Algebra<V>, cp: string, l: nat, v: V, at: string)
    requires 1 <= l <= 11
    ensures ParseLevel(w, cp, l) == Value(v, at) <==>
            exists e, rest :: Fits(e) && Rank(e) <= l && Closed(e, rest, l) && cp == Show(e, rest) && at == Skip(rest) && Eval(w, e) == Some(v)
  {
    hide ParseLevel, Fits, Show, Skip, Eval, Ends, Stops;
    if ParseLevel(w, cp, l) == Value(v, at) {
      var e, rest := LevelWritten(w, cp, l);
      assert Closed(e, rest, l);
    }
    forall e, rest | Fits(e) && Rank(e) <= l && Closed(e, rest, l) && cp == Show(e, rest) && at == Skip(rest) && Eval(w, e) == Some(v)
      ensures ParseLevel(w, cp, l) == Value(v, at)
    {
      RoundTrip(w, e, rest, l);
    }
  }

  /** The line is the text of e and then white space, and v is the value of e. */
  ghost predicate IsLine<V>(w: Algebra<V>, line: string, e: Expr, sp: string, v: V) {
    Fits(e) && IsBlank(sp) && (Complete(e) || sp == "") && line == Show(e, sp) && Eval(w, e) == Some(v)
  }

  /** A line is read to its end exactly when it is an expression of the grammar in some layout. */
  lemma {:induction false} LineExactly<V>(w: Algebra<V>, line: string, v: V)
    ensures ParseIf(w, line) == Value(v, "") <==> exists e, sp :: IsLine(w, line, e, sp, v)
  {
    hide ParseLevel, Fits, Show, Skip, Eval, IsBlank, Complete, Stops;
    if ParseIf(w, line) == Value(v, "") {
      var e, sp := LevelWritten(w, line, 11);
      OnlyBlank(sp);
      if sp != "" { IncompleteEnds(e, sp); }
      assert IsLine(w, line, e, sp, v);
    }
    if e, sp :| IsLine(w, line, e, sp, v) {
      WholeLine(w, e, sp);
    }
  }

  lemma {:induction false} OnlyBlank(sp: string)
    requires Skip(sp) == ""
    ensures IsBlank(sp)
  {
    hide Skip, IsBlank;
    assert Lead(sp) + "" == Lead(sp);
  }

  // ----- errors -----

  /** The errors that parse_land and parse_lor could report for a single & or | never occur: the tighter levels have
      taken every one of them. */
  lemma {:induction false} SingleIsTaken<V>(w: Algebra<V>, cp: string, l: nat)
    requires 1 <= l <= 10 && ParseLevel(w, cp, l - 1).Value?
    ensures OpAt(Skip(ParseLevel(w, cp, l - 1).rest), l) != Bad
  {
    hide ParseLevel, Skip, Written, Stops;
    var e, rest := OperandWritten(w, cp, l - 1);
    Shorter(w, cp, l - 1, e, rest);
    StoppedIsNotBad(Skip(rest), l);
  }

  lemma {:induction false} StoppedIsNotBad(at: string, l: nat)
    requires 1 <= l && Stops(at, l - 1)
    ensures OpAt(at, l) != Bad
  {
    if l == 9 { assert OpAt(at, 6) == NoOp; }
    if l == 10 { assert OpAt(at, 8) == NoOp; }
  }

  predicate Opening(c: char) {
    IsSpace(c) || c == '(' || Prefix(c).Some?
  }

  /** The value v is that of an operand of the line, behind opening parentheses, prefix operators and white space. */
  ghost predicate LeftBehind<V>(w: Algebra<V>, cp: string, v: V) {
    exists pre, e, rest :: AllOf(Opening, pre) && cp == pre + Show(e, rest) && Fits(e) && Ends(e, rest) && Eval(w, e) == Some(v)
  }

  lemma {:induction false} OperandLeft<V>(w: Algebra<V>, cp: string, r: Parse<V>, e: Expr, rest: string)
    requires Written(w, cp, r, e, rest)
    ensures LeftBehind(w, cp, r.v)
  {
    hide Fits, Show, Ends, Eval, Skip;
    assert AllOf(Opening, "") && cp == "" + Show(e, rest);
  }

  lemma {:induction false} OpeningMore(sp: string, c: char, pre: string)
    requires IsBlank(sp) && Opening(c) && AllOf(Opening, pre)
    ensures AllOf(Opening, sp + [c] + pre)
  {
  }

  lemma {:induction false} OpenedLeft<V>(w: Algebra<V>, cp: string, v: V)
    requires Skip(cp) != "" && Opening(Skip(cp)[0]) && LeftBehind(w, Skip(cp)[1..], v)
    ensures LeftBehind(w, cp, v)
  {
    hide Fits, Show, Ends, Eval, Skip, Lead, AllOf;
    var inner := Skip(cp)[1..];
    var pre, e, rest :| AllOf(Opening, pre) && inner == pre + Show(e, rest) && Fits(e) && Ends(e, rest) && Eval(w, e) == Some(v);
    var more := Lead(cp) + [Skip(cp)[0]] + pre;
    OpeningMore(Lead(cp), Skip(cp)[0], pre);
    assert cp == more + Show(e, rest) by { assert Skip(cp) == [Skip(cp)[0]] + inner; }
  }

  /** After an error the value left for the caller, which looks at nothing else, is 0 (as nothing had been read yet) or
      that of an operand in front of the place of the error. */
  lemma {:induction false} ErrorLeaves<V>(w: Algebra<V>, cp: string, l: nat)
    requires l <= 11 && ParseLevel(w, cp, l).Fail?
    ensures ParseLevel(w, cp, l).v == w.nothing || LeftBehind(w, cp, ParseLevel(w, cp, l).v)
    decreases |cp|, l + 2
  {
    hide ParseLevel, ParseValue, ParseOperator, ParseQuestion, LeftBehind, Written, Skip, Stops;
    if l == 0 {
      LevelZero(w, cp);
      ValueErrorLeaves(w, cp);
    } else {
      if l == 11 { ConditionLevel(w, cp); } else { OperatorLevel(w, cp, l); }
      var left := ParseLevel(w, cp, l - 1);
      if left.Fail? {
        ErrorLeaves(w, cp, l - 1);
      } else if left.Value? {
        var e, rest := OperandWritten(w, cp, l - 1);
        OperandLeft(w, cp, left, e, rest);
        FailsWithLeft(w, left.v, Skip(left.rest), l);
      }
    }
  }

  lemma {:induction false} FailsWithLeft<V>(w: Algebra<V>, v: V, at: string, l: nat)
    requires l > 0
    ensures l <= 10 && ParseOperator(w, v, at, l).Fail? ==> ParseOperator(w, v, at, l).v == v
    ensures l == 11 && ParseQuestion(w, v, at).Fail? ==> ParseQuestion(w, v, at).v == v
  {
    hide ParseLevel, OpAt, Skip;
  }

  lemma {:induction false} ValueErrorLeaves<V>(w: Algebra<V>, cp: string)
    requires ParseValue(w, cp).Fail?
    ensures ParseValue(w, cp).v == w.nothing || LeftBehind(w, cp, ParseValue(w, cp).v)
    decreases |cp|, 1
  {
    hide ParseLevel, ParseValue, LeftBehind, Written, Skip, Stops;
    var at := Skip(cp);
    if at != "" && at[0] == '(' {
      assert at == ['('] + at[1..];
      ParenText(w, Lead(cp), at[1..]);
      var r := ParseLevel(w, at[1..], 11);
      if r.Fail? {
        ErrorLeaves(w, at[1..], 11);
      } else if r.Value? {
        var e, rest := LevelWritten(w, at[1..], 11);
        OperandLeft(w, at[1..], r, e, rest);
      }
      if LeftBehind(w, at[1..], ParseValue(w, cp).v) { OpenedLeft(w, cp, ParseValue(w, cp).v); }
    } else if at != "" && Prefix(at[0]).Some? {
      var un := Prefix(at[0]).value;
      assert at == [UnarySymbol(un)] + at[1..];
      UnaryText(w, Lead(cp), un, at[1..]);
      ValueErrorLeaves(w, at[1..]);
      if LeftBehind(w, at[1..], ParseValue(w, cp).v) { OpenedLeft(w, cp, ParseValue(w, cp).v); }
    } else {
      TokenErrorLeaves(w, cp);
    }
  }

  lemma {:induction false} TokenErrorLeaves<V>(w: Algebra<V>, cp: string)
    requires ParseValue(w, cp).Fail?
    requires Skip(cp) != "" ==> Skip(cp)[0] != '(' && Prefix(Skip(cp)[0]).None?
    ensures ParseValue(w, cp).v == w.nothing
  {
    hide ParseLevel, Skip, ParseVariable, ParseAnswers, IsDefined, Strtol;
  }
}
