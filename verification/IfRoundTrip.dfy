/** Parsing what was printed: every line of the grammar is read as the expression it was written from. */
module IfRoundTrip {
  import opened IfExpression
  import opened IfGrammar

  // ----- tokens -----

  lemma {:induction false} DropAll(p: char -> bool, t: string, rest: string)
    requires AllOf(p, t) && (rest != "" ==> !p(rest[0]))
    ensures Drop(p, t + rest) == rest
  {
    if t == "" {
      assert t + rest == rest;
    } else {
      assert (t + rest)[1..] == t[1..] + rest;
      DropAll(p, t[1..], rest);
    }
  }

  /** White space is skipped, up to whatever follows. */
  lemma {:induction false} SkipBlank(sp: string, t: string)
    requires IsBlank(sp)
    ensures Skip(sp + t) == Skip(t)
  {
    if sp == "" {
      assert sp + t == t;
    } else {
      assert (sp + t)[1..] == sp[1..] + t;
      SkipBlank(sp[1..], t);
    }
  }

  lemma {:induction false} NothingIsBlank()
    ensures IsBlank("")
  {
  }

  lemma {:induction false} SkipNothing(t: string)
    requires t != "" ==> !IsSpace(t[0])
    ensures Skip(t) == t
  {
  }

  lemma {:induction false} SkipTwice(cp: string)
    ensures Skip(Skip(cp)) == Skip(cp)
  {
    SkipNothing(Skip(cp));
  }

  lemma {:induction false} SkipTo(sp: string, t: string)
    requires IsBlank(sp) && (t != "" ==> !IsSpace(t[0]))
    ensures Skip(sp + t) == t
  {
    SkipBlank(sp, t);
    SkipNothing(t);
  }

  /** Nothing that could continue a word follows. */
  predicate EndsWord(rest: string) {
    rest != "" ==> !IsWord(rest[0])
  }

  lemma {:induction false} EndsAfterBlank(sp: string, t: string)
    requires IsBlank(sp) && EndsWord(t)
    ensures EndsWord(sp + t)
  {
    if sp != "" { assert IsSpace(sp[0]); } else { assert sp + t == t; }
  }

  lemma {:induction false} NameTail(name: string)
    requires IsName(name)
    ensures AllOf(IsWord, name[1..]) && !IsSpace(name[0])
  {
  }

  lemma {:induction false} NameAll(sp: string, name: string, rest: string)
    requires IsBlank(sp) && IsName(name) && EndsWord(rest)
    ensures ParseVariable(sp + (name + rest)) == Name(name, rest)
  {
    hide Drop, AllOf, Skip;
    var t := name + rest;
    assert t[0] == name[0];
    NameTail(name);
    SkipTo(sp, t);
    assert t[1..] == name[1..] + rest;
    DropAll(IsWord, name[1..], rest);
    assert t[..|name|] == name;
  }

  lemma {:induction false} DenotesMore(done: string, c: char, base: nat)
    ensures Denotes(done + [c], base) == Denotes(done, base) * base + DigitValue(c)
  {
    assert (done + [c])[..|done|] == done;
  }

  lemma {:induction false} DigitsAll(t: string, base: nat, acc: nat, done: string, rest: string)
    requires AllDigits(t, base) && (rest != "" ==> !IsDigitOf(rest[0], base))
    requires acc == Denotes(done, base)
    ensures Digits(t + rest, base, acc) == (Denotes(done + t, base), rest)
  {
    hide Denotes, DigitValue, IsDigitOf;
    if t == "" {
      assert t + rest == rest && done + t == done;
    } else {
      assert (t + rest)[1..] == t[1..] + rest;
      DenotesMore(done, t[0], base);
      assert done + [t[0]] + t[1..] == done + t;
      DigitsAll(t[1..], base, acc * base + DigitValue(t[0]), done + [t[0]], rest);
    }
  }

  lemma {:induction false} StrtolDecimal(digits: string, tail: string)
    requires IsNumeral(Decimal, digits) && DigitsEnd(Decimal, digits, tail)
    ensures Strtol(digits + tail) == (Denotes(digits, 10), tail)
  {
    var d := digits[0];
    assert IsDigitOf(d, 10);
    assert (digits + tail)[1..] == digits[1..] + tail;
    assert [d][..0] == "";
    assert Denotes([d], 10) == DigitValue(d);
    assert [d] + digits[1..] == digits;
    DigitsAll(digits[1..], 10, DigitValue(d), [d], tail);
  }

  lemma {:induction false} StrtolOctal(digits: string, tail: string)
    requires AllDigits(digits, 8) && DigitsEnd(Octal, digits, tail)
    ensures Strtol(['0'] + (digits + tail)) == (Denotes(digits, 8), tail)
  {
    var cp := ['0'] + (digits + tail);
    assert cp[1..] == digits + tail;
    if digits != "" { assert cp[1] == digits[0] && IsDigitOf(digits[0], 8); }
    DigitsAll(digits, 8, 0, [], tail);
    assert [] + digits == digits;
  }

  lemma {:induction false} StrtolHexadecimal(x: char, digits: string, tail: string)
    requires IsNumeral(Hexadecimal(x), digits) && DigitsEnd(Hexadecimal(x), digits, tail)
    ensures Strtol(['0', x] + (digits + tail)) == (Denotes(digits, 16), tail)
  {
    var cp := ['0', x] + (digits + tail);
    assert cp[2..] == digits + tail;
    assert cp[2] == digits[0] && IsDigitOf(digits[0], 16);
    DigitsAll(digits, 16, 0, [], tail);
    assert [] + digits == digits;
  }

  /** A numeral in any base is read to its end and denotes its value. */
  lemma {:induction false} StrtolAll(radix: Radix, digits: string, tail: string)
    requires IsNumeral(radix, digits) && DigitsEnd(radix, digits, tail)
    ensures PrefixText(radix) + (digits + tail) != "" && IsDigit((PrefixText(radix) + (digits + tail))[0])
    ensures Strtol(PrefixText(radix) + (digits + tail)) == (Denotes(digits, Base(radix)), tail)
  {
    hide Denotes, DigitsEnd, Strtol;
    match radix
    case Decimal =>
      assert IsDigitOf(digits[0], 10);
      StrtolDecimal(digits, tail);
      assert PrefixText(radix) + (digits + tail) == digits + tail;
    case Octal => StrtolOctal(digits, tail);
    case Hexadecimal(x) => StrtolHexadecimal(x, digits, tail);
  }

  /** The separator ends the name in front of it. */
  lemma {:induction false} SeparatorEnds(a: Answer, tail: string)
    requires IsBlank(a.sp1) && !IsSpace(a.sep) && (IsWord(a.sep) ==> a.sp1 != "")
    ensures EndsWord(a.sp1 + ([a.sep] + tail)) && Skip(a.sp1 + ([a.sep] + tail)) == [a.sep] + tail
  {
    SkipTo(a.sp1, [a.sep] + tail);
    if a.sp1 != "" { assert IsSpace(a.sp1[0]); } else { assert a.sp1 + ([a.sep] + tail) == [a.sep] + tail; }
  }

  /** A list of answers is read to just behind its closing parenthesis. */
  lemma {:induction false} AnswersAll(open: char, answers: seq<Answer>, rest: string)
    requires IsList(answers)
    ensures ParseAnswers([open] + ShowAnswers(answers, rest)) == Some((Names(answers), rest))
    decreases answers
  {
    hide ParseVariable, Skip, IsName, IsBlank, EndsWord;
    var a, more := answers[0], ShowAnswers(answers[1..], rest);
    var tail := a.sp1 + ([a.sep] + more);
    assert ([open] + (a.sp + (a.name + tail)))[1..] == a.sp + (a.name + tail);
    SeparatorEnds(a, more);
    NameAll(a.sp, a.name, tail);
    assert ([a.sep] + more)[1..] == more;
    if |answers| == 1 {
      assert answers[1..] == [];
      assert Names(answers) == [a.name];
    } else {
      AnswersAll(a.sep, answers[1..], rest);
    }
  }

  // ----- operators -----

  /** A text that starts like an operand, so that it cannot lengthen an operator in front of it. */
  predicate Starts(t: string) {
    t != "" ==> t[0] != '=' && t[0] != '<' && t[0] != '>' && t[0] != '&' && t[0] != '|'
  }

  lemma {:induction false} SymbolFound(op: BinOp, t: string)
    requires Starts(t)
    ensures OpAt(Symbol(op) + t, Level(op)) == Op(op, |Symbol(op)|)
    ensures (Symbol(op) + t)[|Symbol(op)|..] == t
  {
  }

  lemma {:induction false} SymbolPassed(op: BinOp, t: string, j: nat)
    requires Starts(t) && j < Level(op)
    ensures OpAt(Symbol(op) + t, j) == NoOp
  {
  }

  lemma {:induction false} SymbolStops(op: BinOp, t: string)
    requires Starts(t)
    ensures Stops(Symbol(op) + t, Level(op) - 1)
  {
    forall j | 1 <= j <= Level(op) - 1 ensures OpAt(Symbol(op) + t, j) == NoOp {
      SymbolPassed(op, t, j);
    }
  }

  /** A complete expression ends wherever no word goes on. */
  lemma {:induction false} EndsEasily(e: Expr, rest: string)
    requires Fits(e) && Complete(e) && EndsWord(rest)
    ensures Ends(e, rest)
  {
    match e
    case Number(sp, radix, digits, suffix) =>
      if suffix != "" { assert IsSuffix(suffix[0]) && (suffix + rest)[0] == suffix[0]; } else { assert suffix + rest == rest; }
    case Unary(sp, un, x) => EndsEasily(x, rest);
    case Binary(l, sp, op, r) => EndsEasily(r, rest);
    case Conditional(c, sp, y, sp1, n) => EndsEasily(n, rest);
    case _ =>
  }

  lemma {:induction false} SymbolEnds(op: BinOp, t: string)
    ensures EndsWord(Symbol(op) + t) && Skip(Symbol(op) + t) == Symbol(op) + t
  {
  }

  /** An operator closes the operand in front of it at every tighter level. */
  lemma {:induction false} SymbolCloses(e: Expr, sp: string, op: BinOp, t: string)
    requires Fits(e) && Complete(e) && Starts(t) && IsBlank(sp)
    ensures Closed(e, sp + (Symbol(op) + t), Level(op) - 1)
    ensures Skip(sp + (Symbol(op) + t)) == Symbol(op) + t
  {
    hide Fits, Complete, Ends, Symbol, Skip, EndsWord, Stops;
    SymbolEnds(op, t);
    SkipBlank(sp, Symbol(op) + t);
    SymbolStops(op, t);
    EndsAfterBlank(sp, Symbol(op) + t);
    EndsEasily(e, sp + (Symbol(op) + t));
  }

  lemma {:induction false} PunctuationStops(c: char, t: string, l: nat)
    requires c == ')' || c == ':' || (c == '?' && l <= 10)
    ensures Stops([c] + t, l)
  {
  }

  lemma {:induction false} PunctuationCloses(e: Expr, sp: string, c: char, t: string, l: nat)
    requires Fits(e) && Complete(e) && IsBlank(sp) && (c == ')' || c == ':' || (c == '?' && l <= 10))
    ensures Closed(e, sp + ([c] + t), l) && Skip(sp + ([c] + t)) == [c] + t
  {
    hide Fits, Complete, Ends, Skip, Stops;
    SkipTo(sp, [c] + t);
    PunctuationStops(c, t, l);
    EndsAfterBlank(sp, [c] + t);
    EndsEasily(e, sp + ([c] + t));
  }

  lemma {:induction false} BlankStarts(sp: string, t: string)
    requires IsBlank(sp) && Starts(t)
    ensures Starts(sp + t)
  {
    if sp != "" { assert IsSpace(sp[0]); } else { assert sp + t == t; }
  }

  lemma {:induction false} NumberStarts(radix: Radix, digits: string, t: string)
    requires IsNumeral(radix, digits)
    ensures Starts(PrefixText(radix) + (digits + t))
  {
    if radix.Decimal? {
      assert IsDigitOf(digits[0], 10);
      assert (PrefixText(radix) + (digits + t))[0] == digits[0];
    }
  }

  lemma {:induction false} ShowStarts(e: Expr, rest: string)
    requires Fits(e) && Ends(e, rest)
    ensures Starts(Show(e, rest))
  {
    hide IsNumeral, NumberEnds, AllOf, IsBlank, IsList;
    match e
    case Number(sp, radix, digits, suffix) =>
      NumberStarts(radix, digits, suffix + rest);
      BlankStarts(sp, PrefixText(radix) + (digits + (suffix + rest)));
    case Character(sp, sp1, text) => BlankStarts(sp, ['\''] + (sp1 + (text + (['\''] + rest))));
    case Variable(sp, name) => BlankStarts(sp, name + rest);
    case Defined(sp, sp1, name) => BlankStarts(sp, "defined" + (sp1 + (name + rest)));
    case DefinedParen(sp, sp1, sp2, name, sp3) => BlankStarts(sp, "defined" + (sp1 + (['('] + (sp2 + (name + (sp3 + ([')'] + rest)))))));
    case Assertion(sp, sp1, name, sp2, answers) => BlankStarts(sp, ['#'] + (sp1 + (name + (sp2 + (['('] + ShowAnswers(answers, rest))))));
    case Absent(sp) => BlankStarts(sp, rest);
    case Paren(sp, x, sp1) => BlankStarts(sp, ['('] + Show(x, sp1 + ([')'] + rest)));
    case Unary(sp, un, x) => BlankStarts(sp, [UnarySymbol(un)] + Show(x, rest));
    case Binary(l, sp, op, r) =>
      ShowStarts(r, rest);
      SymbolCloses(l, sp, op, Show(r, rest));
      ShowStarts(l, sp + (Symbol(op) + Show(r, rest)));
    case Conditional(c, sp, y, sp1, n) =>
      PunctuationCloses(c, sp, '?', Show(y, sp1 + ([':'] + Show(n, rest))), 10);
      ShowStarts(c, sp + (['?'] + Show(y, sp1 + ([':'] + Show(n, rest)))));
  }

  // ----- values -----

  /** White space in front of a value makes no difference. */
  lemma {:induction false} ParseValueSkips<V>(w: Algebra<V>, sp: string, t: string)
    requires IsBlank(sp) && (t != "" ==> !IsSpace(t[0]))
    ensures ParseValue(w, sp + t) == ParseToken(w, t)
  {
    hide ParseToken;
    SkipTo(sp, t);
  }

  lemma {:induction false} NumberAll<V>(w: Algebra<V>, radix: Radix, digits: string, suffix: string, rest: string)
    requires IsNumeral(radix, digits) && AllOf(IsSuffix, suffix) && NumberEnds(radix, digits, suffix, rest)
    ensures ParseNumber(w, PrefixText(radix) + (digits + (suffix + rest))) == Value(w.number(Denotes(digits, Base(radix))), rest)
  {
    hide Strtol, Denotes, Drop, Skip, PrefixText, IsNumeral, Base, AllOf, IsDigitOf, DigitsEnd;
    StrtolAll(radix, digits, suffix + rest);
    SkipNothing(PrefixText(radix) + (digits + (suffix + rest)));
    DropAll(IsSuffix, suffix, rest);
  }

  lemma {:induction false} NumberToken<V>(w: Algebra<V>, t: string)
    requires t != "" && IsDigit(t[0])
    ensures ParseToken(w, t) == ParseNumber(w, t)
  {
    hide ParseLevel, ParseValue, ParseNumber, ParseVariable, ParseDefined;
  }

  lemma {:induction false} NumberText<V>(w: Algebra<V>, sp: string, radix: Radix, digits: string, suffix: string, rest: string)
    requires IsBlank(sp) && IsNumeral(radix, digits) && AllOf(IsSuffix, suffix) && NumberEnds(radix, digits, suffix, rest)
    ensures ParseValue(w, sp + (PrefixText(radix) + (digits + (suffix + rest)))) == Value(w.number(Denotes(digits, Base(radix))), rest)
  {
    hide ParseToken, ParseValue, ParseNumber, Strtol, Denotes, AllOf, IsBlank;
    var t := PrefixText(radix) + (digits + (suffix + rest));
    StrtolAll(radix, digits, suffix + rest);
    ParseValueSkips(w, sp, t);
    NumberToken(w, t);
    NumberAll(w, radix, digits, suffix, rest);
  }

  lemma {:induction false} CharacterToken<V>(w: Algebra<V>, t: string)
    ensures ParseToken(w, ['\''] + t) == ParseCharacter(w, t)
  {
    hide ParseLevel, ParseValue, ParseCharacter;
    assert (['\''] + t)[1..] == t;
  }

  lemma {:induction false} CharacterAll<V>(w: Algebra<V>, sp1: string, text: string, rest: string)
    requires IsBlank(sp1) && AllOf(NotQuote, text) && (text != "" ==> !IsSpace(text[0]))
    ensures ParseCharacter(w, sp1 + (text + (['\''] + rest))) == Value(w.character(text), rest)
  {
    hide Drop, Skip, AllOf;
    var end := ['\''] + rest;
    SkipTo(sp1, text + end);
    DropAll(NotQuote, text, end);
    assert (text + end)[..|text|] == text && end[1..] == rest;
  }

  lemma {:induction false} CharacterText<V>(w: Algebra<V>, sp: string, sp1: string, text: string, rest: string)
    requires IsBlank(sp) && IsBlank(sp1) && AllOf(NotQuote, text) && (text != "" ==> !IsSpace(text[0]))
    ensures ParseValue(w, sp + (['\''] + (sp1 + (text + (['\''] + rest))))) == Value(w.character(text), rest)
  {
    hide ParseToken, ParseValue, ParseCharacter, AllOf;
    var t := sp1 + (text + (['\''] + rest));
    ParseValueSkips(w, sp, ['\''] + t);
    CharacterToken(w, t);
    CharacterAll(w, sp1, text, rest);
  }

  lemma {:induction false} PlainNameIsNotDefined(name: string, rest: string)
    requires IsPlainName(name) && EndsWord(rest)
    ensures !IsDefined(name + rest)
  {
    var t := name + rest;
    if |name| >= 7 {
      assert t[..7] == name[..7];
      if |name| > 7 { assert t[7] == name[7]; }
    } else if |t| >= 7 {
      assert t[..7][|name|] == rest[0];
      assert IsWord("defined"[|name|]);
    }
  }

  /** parse_value at a name that is not the keyword. */
  lemma {:induction false} NameToken<V>(w: Algebra<V>, t: string, name: string, rest: string)
    requires t != "" && IsFirst(t[0]) && !IsDefined(t) && ParseVariable(t) == Name(name, rest)
    ensures ParseToken(w, t) == Value(w.variable(name), rest)
  {
    hide ParseLevel, ParseValue, IsDefined, ParseVariable;
  }

  lemma {:induction false} VariableText<V>(w: Algebra<V>, sp: string, name: string, rest: string)
    requires IsBlank(sp) && IsPlainName(name) && EndsWord(rest)
    ensures ParseValue(w, sp + (name + rest)) == Value(w.variable(name), rest)
  {
    hide ParseValue, ParseToken, ParseVariable, IsDefined, AllOf, EndsWord;
    var t := name + rest;
    assert t[0] == name[0];
    ParseValueSkips(w, sp, t);
    PlainNameIsNotDefined(name, rest);
    NothingIsBlank();
    NameAll("", name, rest);
    assert "" + t == t;
    NameToken(w, t, name, rest);
  }

  /** The keyword is recognised when no letter or digit follows it. */
  lemma {:induction false} DefinedKeyword<V>(w: Algebra<V>, sp: string, t: string)
    requires IsBlank(sp) && (t != "" ==> !IsAlpha(t[0]) && !IsDigit(t[0]))
    ensures ParseValue(w, sp + ("defined" + t)) == ParseDefined(w, t)
  {
    hide ParseLevel, ParseValue, ParseDefined, Drop, AllOf;
    var at := "defined" + t;
    assert at[..7] == "defined" && at[7..] == t && (t != "" ==> at[7] == t[0]);
    ParseValueSkips(w, sp, at);
  }

  lemma {:induction false} KeywordEnds(sp1: string, name: string, rest: string)
    requires IsBlank(sp1) && IsName(name) && (sp1 != "" || name[0] == '_')
    ensures var t := sp1 + (name + rest); t != "" && !IsAlpha(t[0]) && !IsDigit(t[0])
  {
    var t := sp1 + (name + rest);
    if sp1 != "" { assert t[0] == sp1[0] && IsSpace(sp1[0]); } else { assert t[0] == name[0]; }
  }

  /** What follows the keyword, without parentheses. */
  lemma {:induction false} DefinedName<V>(w: Algebra<V>, t: string, name: string, rest: string)
    requires !At(Skip(t), 0, '(') && ParseVariable(Skip(t)) == Name(name, rest)
    ensures ParseDefined(w, t) == Value(w.defined(name), Skip(rest))
  {
    hide ParseVariable, Skip;
  }

  lemma {:induction false} DefinedText<V>(w: Algebra<V>, sp: string, sp1: string, name: string, rest: string)
    requires IsBlank(sp) && IsBlank(sp1) && IsName(name) && (sp1 != "" || name[0] == '_') && EndsWord(rest)
    ensures ParseValue(w, sp + ("defined" + (sp1 + (name + rest)))) == Value(w.defined(name), Skip(rest))
  {
    hide ParseValue, ParseVariable, ParseDefined, Skip, EndsWord, AllOf;
    var t := name + rest;
    assert t[0] == name[0];
    KeywordEnds(sp1, name, rest);
    DefinedKeyword(w, sp, sp1 + t);
    SkipTo(sp1, t);
    NothingIsBlank();
    NameAll("", name, rest);
    assert "" + t == t;
    DefinedName(w, sp1 + t, name, rest);
  }

  lemma {:induction false} DefinedParenText<V>(w: Algebra<V>, sp: string, sp1: string, sp2: string, name: string, sp3: string, rest: string)
    requires IsBlank(sp) && IsBlank(sp1) && IsBlank(sp2) && IsName(name) && IsBlank(sp3)
    ensures ParseValue(w, sp + ("defined" + (sp1 + (['('] + (sp2 + (name + (sp3 + ([')'] + rest)))))))) == Value(w.defined(name), rest)
  {
    hide ParseValue, ParseVariable, Skip, IsName, IsBlank;
    var close := [')'] + rest;
    var inner := sp2 + (name + (sp3 + close));
    ParenStarts(sp1, inner);
    DefinedKeyword(w, sp, sp1 + (['('] + inner));
    SkipTo(sp1, ['('] + inner);
    assert (['('] + inner)[1..] == inner;
    EndsAfterBlank(sp3, close);
    NameAll(sp2, name, sp3 + close);
    SkipTo(sp3, close);
    assert close[1..] == rest;
  }

  lemma {:induction false} ParenStarts(sp1: string, inner: string)
    requires IsBlank(sp1)
    ensures var t := sp1 + (['('] + inner); t != "" && !IsAlpha(t[0]) && !IsDigit(t[0])
  {
    if sp1 != "" { assert IsSpace(sp1[0]); }
  }

  lemma {:induction false} AssertionText<V>(w: Algebra<V>, sp: string, sp1: string, name: string, sp2: string, answers: seq<Answer>, rest: string)
    requires IsBlank(sp) && IsBlank(sp1) && IsName(name) && IsBlank(sp2) && IsList(answers)
    ensures ParseValue(w, sp + (['#'] + (sp1 + (name + (sp2 + (['('] + ShowAnswers(answers, rest))))))) == Value(w.asserted(name, Names(answers)), rest)
  {
    hide ParseValue, ParseLevel, ParseVariable, Skip, ParseAnswers, ShowAnswers, IsList, IsName, IsBlank, Names;
    var open := ['('] + ShowAnswers(answers, rest);
    var t := sp1 + (name + (sp2 + open));
    ParseValueSkips(w, sp, ['#'] + t);
    assert (['#'] + t)[1..] == t;
    EndsAfterBlank(sp2, open);
    NameAll(sp1, name, sp2 + open);
    SkipTo(sp2, open);
    AnswersAll('(', answers, rest);
  }

  lemma {:induction false} AbsentText<V>(w: Algebra<V>, sp: string)
    requires IsBlank(sp)
    ensures ParseValue(w, sp + "") == Value(w.nothing, "")
  {
    ParseValueSkips(w, sp, "");
  }

  lemma {:induction false} ParenText<V>(w: Algebra<V>, sp: string, inner: string)
    requires IsBlank(sp)
    ensures ParseValue(w, sp + (['('] + inner)) == ParenTail(ParseLevel(w, inner, 11))
  {
    hide ParseValue, ParseLevel, Drop;
    ParseValueSkips(w, sp, ['('] + inner);
    assert (['('] + inner)[1..] == inner;
  }

  lemma {:induction false} UnaryText<V>(w: Algebra<V>, sp: string, un: UnOp, inner: string)
    requires IsBlank(sp)
    ensures ParseValue(w, sp + ([UnarySymbol(un)] + inner)) == UnaryTail(w, un, ParseValue(w, inner))
  {
    hide ParseValue, ParseLevel, Drop;
    var t := [UnarySymbol(un)] + inner;
    ParseValueSkips(w, sp, t);
    assert t[1..] == inner && Prefix(t[0]) == Some(un);
  }

  lemma {:induction false} OperatorText<V>(w: Algebra<V>, v: V, op: BinOp, t: string)
    requires Starts(t)
    ensures ParseOperator(w, v, Symbol(op) + t, Level(op)) == Combine(w, op, v, ParseLevel(w, t, Level(op)))
  {
    hide ParseLevel, OpAt, Symbol;
    SymbolFound(op, t);
  }

  // ----- the round trip -----

  /** The parser read e, leaving the cursor before or after the white space that follows. */
  ghost predicate Reads<V>(w: Algebra<V>, r: Parse<V>, e: Expr, rest: string) {
    r == Answered(w, e, rest) || r == Answered(w, e, Skip(rest))
  }

  /** One of the ten levels of binary operators. */
  lemma {:induction false} OperatorLevel<V>(w: Algebra<V>, cp: string, l: nat)
    requires 1 <= l <= 10
    ensures var left := ParseLevel(w, cp, l - 1);
            ParseLevel(w, cp, l) == if !left.Value? then left else ParseOperator(w, left.v, Skip(left.rest), l)
  {
  }

  lemma {:induction false} ConditionLevel<V>(w: Algebra<V>, cp: string)
    ensures var left := ParseLevel(w, cp, 10);
            ParseLevel(w, cp, 11) == if !left.Value? then left else ParseQuestion(w, left.v, Skip(left.rest))
  {
  }

  lemma {:induction false} NoOperator<V>(w: Algebra<V>, v: V, at: string, l: nat)
    requires 0 < l <= 11 && Stops(at, l)
    ensures l <= 10 ==> ParseOperator(w, v, at, l) == Value(v, at)
    ensures l == 11 ==> ParseQuestion(w, v, at) == Value(v, at)
  {
    hide OpAt, ParseLevel;
  }

  /** A level without an operator of its own passes on what the tighter level read. */
  lemma {:induction false} Settles<V>(w: Algebra<V>, cp: string, e: Expr, rest: string, l: nat)
    requires 0 < l <= 11 && Stops(Skip(rest), l) && Reads(w, ParseLevel(w, cp, l - 1), e, rest)
    ensures ParseLevel(w, cp, l) == Answered(w, e, Skip(rest))
  {
    hide ParseValue, Eval, Skip, Stops, ParseLevel, ParseOperator, ParseQuestion;
    SkipTwice(rest);
    if l == 11 { ConditionLevel(w, cp); } else { OperatorLevel(w, cp, l); }
    if Eval(w, e).Some? { NoOperator(w, Eval(w, e).value, Skip(rest), l); }
  }

  /** A level with an operator: its left operand, then the operator, then its right operand. */
  lemma {:induction false} BinaryReads<V>(w: Algebra<V>, cp: string, left: Expr, tail: string, op: BinOp, t: string, right: Expr, rest: string)
    requires Starts(t) && Skip(tail) == Symbol(op) + t
    requires Reads(w, ParseLevel(w, cp, Level(op) - 1), left, tail)
    requires ParseLevel(w, t, Level(op)) == Answered(w, right, Skip(rest))
    ensures ParseLevel(w, cp, Level(op)) ==
            match Eval(w, left)
            case None => Trap
            case Some(a) => match Eval(w, right) case None => Trap case Some(b) => match w.binary(op, a, b) case None => Trap case Some(x) => Value(x, Skip(rest))
  {
    hide ParseValue, Eval, Skip, ParseLevel, ParseOperator, Symbol, Level, Starts;
    SkipTwice(tail);
    OperatorLevel(w, cp, Level(op));
    if Eval(w, left).Some? { OperatorText(w, Eval(w, left).value, op, t); }
  }

  /** parse_cond from the question mark on. */
  lemma {:induction false} QuestionReads<V>(w: Algebra<V>, v: V, ty: string, y: Expr, r2: string, tn: string, n: Expr, rest: string)
    requires Skip(r2) == [':'] + tn
    requires ParseLevel(w, ty, 11) == Answered(w, y, Skip(r2)) && ParseLevel(w, tn, 11) == Answered(w, n, Skip(rest))
    ensures ParseQuestion(w, v, ['?'] + ty) ==
            match Eval(w, y)
            case None => Trap
            case Some(a) => match Eval(w, n) case None => Trap case Some(b) => Value(w.choose(v, a, b), Skip(rest))
  {
    hide ParseValue, Eval, Skip, ParseOperator, ParseLevel;
    SkipTwice(r2);
    assert (['?'] + ty)[1..] == ty && ([':'] + tn)[1..] == tn;
  }

  lemma {:induction false} ConditionalReads<V>(w: Algebra<V>, cp: string, c: Expr, r1: string, ty: string, y: Expr, r2: string, tn: string, n: Expr, rest: string)
    requires Skip(r1) == ['?'] + ty && Skip(r2) == [':'] + tn
    requires Reads(w, ParseLevel(w, cp, 10), c, r1)
    requires ParseLevel(w, ty, 11) == Answered(w, y, Skip(r2)) && ParseLevel(w, tn, 11) == Answered(w, n, Skip(rest))
    ensures ParseLevel(w, cp, 11) ==
            match Eval(w, c)
            case None => Trap
            case Some(v) =>
              match Eval(w, y)
              case None => Trap
              case Some(a) => match Eval(w, n) case None => Trap case Some(b) => Value(w.choose(v, a, b), Skip(rest))
  {
    hide ParseValue, Eval, Skip, ParseOperator, ParseLevel, ParseQuestion;
    SkipTwice(r1);
    ConditionLevel(w, cp);
    if Eval(w, c).Some? {
      QuestionReads(w, Eval(w, c).value, ty, y, r2, tn, n, rest);
    }
  }

  lemma {:induction false} ParenReads<V>(w: Algebra<V>, sp: string, x: Expr, inner: string, tail: string, rest: string)
    requires IsBlank(sp) && Skip(tail) == [')'] + rest && ParseLevel(w, inner, 11) == Answered(w, x, Skip(tail))
    ensures ParseValue(w, sp + (['('] + inner)) == Answered(w, x, rest)
  {
    hide ParseValue, ParseLevel, Eval, Skip;
    ParenText(w, sp, inner);
    SkipTwice(tail);
    assert ([')'] + rest)[1..] == rest;
  }

  lemma {:induction false} ParenAnswered<V>(w: Algebra<V>, sp: string, x: Expr, sp1: string, inner: string, rest: string)
    requires ParseValue(w, sp + (['('] + inner)) == Answered(w, x, rest)
    ensures Reads(w, ParseValue(w, sp + (['('] + inner)), Paren(sp, x, sp1), rest)
  {
    hide ParseValue, Skip;
  }

  lemma {:induction false} UnaryReads<V>(w: Algebra<V>, sp: string, un: UnOp, x: Expr, inner: string, rest: string)
    requires IsBlank(sp) && Reads(w, ParseValue(w, inner), x, rest)
    ensures Reads(w, ParseValue(w, sp + ([UnarySymbol(un)] + inner)), Unary(sp, un, x), rest)
  {
    hide ParseValue, Skip;
    UnaryText(w, sp, un, inner);
  }

  /** A number, a character, a name, `defined`, an assertion, or nothing. */
  lemma {:induction false} TokenReads<V>(w: Algebra<V>, e: Expr, rest: string)
    requires Fits(e) && Ends(e, rest) && !e.Paren? && !e.Unary? && !e.Binary? && !e.Conditional?
    ensures Reads(w, ParseValue(w, Show(e, rest)), e, rest)
  {
    hide ParseValue, ParseLevel, Skip, IsNumeral, IsPlainName, IsName, AllOf, Denotes, NumberEnds, IsList, Names;
    match e
    case Number(sp, radix, digits, suffix) => NumberText(w, sp, radix, digits, suffix, rest);
    case Character(sp, sp1, text) => CharacterText(w, sp, sp1, text, rest);
    case Variable(sp, name) => VariableText(w, sp, name, rest);
    case Defined(sp, sp1, name) => DefinedText(w, sp, sp1, name, rest);
    case DefinedParen(sp, sp1, sp2, name, sp3) => DefinedParenText(w, sp, sp1, sp2, name, sp3, rest);
    case Assertion(sp, sp1, name, sp2, answers) => AssertionText(w, sp, sp1, name, sp2, answers, rest);
    case Absent(sp) => AbsentText(w, sp);
  }

  /** A value: a token, a parenthesis, or a prefix operator and its operand. */
  lemma {:induction false} ValueReads<V>(w: Algebra<V>, e: Expr, rest: string)
    requires Fits(e) && Rank(e) == 0 && Ends(e, rest)
    ensures Reads(w, ParseValue(w, Show(e, rest)), e, rest)
    decreases e, 0
  {
    hide ParseValue, ParseLevel, Reads, Answered, Eval, Skip, IsBlank, Closed;
    match e
    case Paren(sp, x, sp1) =>
      var tail := sp1 + ([')'] + rest);
      PunctuationCloses(x, sp1, ')', rest, 11);
      RoundTrip(w, x, tail, 11);
      ParenReads(w, sp, x, Show(x, tail), tail, rest);
      ParenAnswered(w, sp, x, sp1, Show(x, tail), rest);
    case Unary(sp, un, x) =>
      ValueReads(w, x, rest);
      UnaryReads(w, sp, un, x, Show(x, rest), rest);
    case _ => TokenReads(w, e, rest);
  }

  lemma {:induction false} BinaryTrip<V>(w: Algebra<V>, e: Expr, rest: string)
    requires e.Binary? && Fits(e) && Closed(e, rest, Level(e.op))
    ensures ParseLevel(w, Show(e, rest), Level(e.op)) == Answered(w, e, Skip(rest))
    decreases e, 0
  {
    hide ParseValue, ParseLevel, Skip, Closed, Stops, Symbol, IsBlank;
    var t := Show(e.right, rest);
    var tail := e.sp + (Symbol(e.op) + t);
    RightCloses(e, rest);
    ShowStarts(e.right, rest);
    SymbolCloses(e.left, e.sp, e.op, t);
    LeftTrip(w, e.left, tail, Level(e.op) - 1);
    RoundTrip(w, e.right, rest, Level(e.op));
    BinaryReads(w, Show(e.left, tail), e.left, tail, e.op, t, e.right, rest);
  }

  /** What closes an operation closes its last operand. */
  lemma {:induction false} RightCloses(e: Expr, rest: string)
    ensures e.Binary? && Closed(e, rest, Level(e.op)) ==> Closed(e.right, rest, Level(e.op)) && Ends(e.right, rest)
    ensures e.Conditional? && Closed(e, rest, 11) ==> Closed(e.no, rest, 11)
  {
    hide Stops, Skip;
  }

  lemma {:induction false} ConditionalTrip<V>(w: Algebra<V>, e: Expr, rest: string)
    requires e.Conditional? && Fits(e) && Closed(e, rest, 11)
    ensures ParseLevel(w, Show(e, rest), 11) == Answered(w, e, Skip(rest))
    decreases e, 0
  {
    hide ParseValue, ParseLevel, Skip, Closed, IsBlank;
    var tn := Show(e.no, rest);
    var r2 := e.sp1 + ([':'] + tn);
    var ty := Show(e.yes, r2);
    var r1 := e.sp + (['?'] + ty);
    RightCloses(e, rest);
    PunctuationCloses(e.yes, e.sp1, ':', tn, 11);
    PunctuationCloses(e.cond, e.sp, '?', ty, 10);
    RoundTrip(w, e.cond, r1, 10);
    RoundTrip(w, e.yes, r2, 11);
    RoundTrip(w, e.no, rest, 11);
    ConditionalReads(w, Show(e.cond, r1), e.cond, r1, ty, e.yes, r2, tn, e.no, rest);
  }

  lemma {:induction false} LevelZero<V>(w: Algebra<V>, cp: string)
    ensures ParseLevel(w, cp, 0) == ParseValue(w, cp)
  {
  }

  /** An operand, possibly at the level of values. */
  lemma {:induction false} LeftTrip<V>(w: Algebra<V>, e: Expr, rest: string, l: nat)
    requires Fits(e) && Rank(e) <= l <= 10 && Closed(e, rest, l)
    ensures Reads(w, ParseLevel(w, Show(e, rest), l), e, rest)
    decreases e, 13
  {
    hide ParseValue, ParseLevel, Skip, Show, Eval, Stops;
    if l == 0 {
      LevelZero(w, Show(e, rest));
      ValueReads(w, e, rest);
    } else {
      RoundTrip(w, e, rest, l);
    }
  }

  lemma {:induction false} ClosedTighter(e: Expr, rest: string, l: nat)
    requires 0 < l <= 11 && Closed(e, rest, l)
    ensures Closed(e, rest, l - 1) && Stops(Skip(rest), l)
  {
    hide Skip, OpAt, Ends;
  }

  /** Parsing what was printed consumes exactly the printed text (and the white space behind it) and yields the
      expression's value, or traps when its arithmetic does - at every level e may stand at, for every layout,
      and whatever follows, as long as it does not continue e. */
  lemma {:induction false} RoundTrip<V>(w: Algebra<V>, e: Expr, rest: string, l: nat)
    requires Fits(e) && Rank(e) <= l <= 11 && l > 0 && Closed(e, rest, l)
    ensures ParseLevel(w, Show(e, rest), l) == Answered(w, e, Skip(rest))
    decreases e, l
  {
    hide ParseValue, ParseLevel, Skip, Show, Eval, Closed, Stops;
    if Rank(e) == l {
      if l == 11 { ConditionalTrip(w, e, rest); } else { BinaryTrip(w, e, rest); }
    } else {
      ClosedTighter(e, rest, l);
      TighterTrip(w, e, rest, l);
      Settles(w, Show(e, rest), e, rest, l);
    }
  }

  lemma {:induction false} TighterTrip<V>(w: Algebra<V>, e: Expr, rest: string, l: nat)
    requires Fits(e) && Rank(e) < l <= 11 && Closed(e, rest, l - 1)
    ensures Reads(w, ParseLevel(w, Show(e, rest), l - 1), e, rest)
    decreases e, l, 0
  {
    hide ParseValue, ParseLevel, Skip, Show, Eval, Stops;
    if l == 1 {
      LevelZero(w, Show(e, rest));
      ValueReads(w, e, rest);
    } else {
      RoundTrip(w, e, rest, l - 1);
    }
  }

  lemma {:induction false} SkipOnlyBlank(sp: string)
    requires IsBlank(sp)
    ensures Skip(sp) == ""
  {
    assert sp + "" == sp;
    SkipTo(sp, "");
  }

  lemma {:induction false} LineEnds(e: Expr, sp: string)
    requires Fits(e) && IsBlank(sp) && (Complete(e) || sp == "")
    ensures Ends(e, sp)
  {
    match e
    case Absent(_) =>
    case Unary(_, _, x) => LineEnds(x, sp);
    case Binary(_, _, _, r) => LineEnds(r, sp);
    case Conditional(_, _, _, _, n) => LineEnds(n, sp);
    case _ => EndsEasily(e, sp);
  }

  /** A whole #if line: any expression of the grammar in any layout, then white space, then the end of the line. */
  lemma {:induction false} WholeLine<V>(w: Algebra<V>, e: Expr, sp: string)
    requires Fits(e) && IsBlank(sp) && (Complete(e) || sp == "")
    ensures ParseIf(w, Show(e, sp)) == Answered(w, e, "")
  {
    hide ParseValue, ParseLevel, Show, Eval, Fits, Skip, IsBlank;
    SkipOnlyBlank(sp);
    LineEnds(e, sp);
    RoundTrip(w, e, sp, 11);
  }
}
