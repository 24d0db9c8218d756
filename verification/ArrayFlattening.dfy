/** FlattenSomeArrays and AllLiterals of pswrap's psw.c: arrays that are no constants become [ ... ]. */
module ArrayFlattening {

  // ----- tokens -----

  /** A formal of the wrap, so far as it matters here: a char formal named in the body is an executable name. */
  datatype Formal = Formal(name: string, isChar: bool)

  datatype Option<T> = None | Some(value: T)

  datatype Token =
    | Scalar(text: string)                                // T_FLOAT, T_INT, T_BOOLEAN, T_STRING, T_HEXSTRING, T_LITNAME, T_SUBSCRIPTED
    | Name(text: string, formal: Option<Formal>)          // T_NAME
    | Array(body: seq<Token>)                             // T_ARRAY
    | Proc(body: seq<Token>)                              // T_PROC

  const LSQ := Name("[", None)
  const RSQ := Name("]", None)

  /** Executed when it is met: an operator, or the name that a char formal holds. */
  predicate Executed(t: Token) {
    t.Name? && (t.formal.None? || t.formal.value.isChar)
  }

  // ----- the two procedures as functions -----

  /** AllLiterals */
  predicate Literal(body: seq<Token>) {
    body == [] || (LiteralToken(body[0]) && Literal(body[1..]))
  }

  predicate LiteralToken(t: Token) {
    match t
    case Name(_, formal) => formal.Some?
    case Array(b) => Literal(b)
    case _ => true
  }

  /** The work left: replacing an array by its elements and a bracket makes it smaller. */
  function Size(body: seq<Token>): nat {
    if body == [] then 0 else Weight(body[0]) + Size(body[1..])
  }

  function Weight(t: Token): (w: nat)
    ensures w > 0
  {
    match t
    case Array(b) => 2 + Size(b)
    case Proc(b) => 1 + Size(b)
    case _ => 1
  }

  lemma {:induction false} SizeJoin(a: seq<Token>, b: seq<Token>)
    ensures Size(a + b) == Size(a) + Size(b)
  {
    if a == [] {
      assert a + b == b;
    } else {
      assert (a + b)[1..] == a[1..] + b;
      SizeJoin(a[1..], b);
    }
  }

  lemma {:induction false} SpliceShrinks(b: seq<Token>, rest: seq<Token>)
    ensures Size(b + [RSQ] + rest) < Weight(Array(b)) + Size(rest)
  {
    SizeJoin(b + [RSQ], rest);
    SizeJoin(b, [RSQ]);
  }

  /** FlattenSomeArrays */
  function Flattened(body: seq<Token>): seq<Token>
    decreases Size(body)
  {
    if body == [] then [] else
    assert Size(body) == Weight(body[0]) + Size(body[1..]);
    match body[0]
    case Array(b) =>
      assert Weight(body[0]) == 2 + Size(b);
      if Literal(b) then [Array(Flattened(b))] + Flattened(body[1..])
      else
        SpliceShrinks(b, body[1..]);
        [LSQ] + Flattened(b + [RSQ] + body[1..])
    case Proc(b) =>
      assert Weight(body[0]) == 1 + Size(b);
      [Proc(Flattened(b))] + Flattened(body[1..])
    case _ => [body[0]] + Flattened(body[1..])
  }

  // ----- and as they are written -----

  method AllLiterals(body: seq<Token>) returns (r: bool)
    ensures r == Literal(body)
    decreases body
  {
    var t := 0;
    assert body[0..] == body;
    while t < |body|
      invariant 0 <= t <= |body| && Literal(body) == Literal(body[t..])
    {
      assert body[t..][0] == body[t] && body[t..][1..] == body[t + 1..];
      match body[t] {
        case Name(_, formal) =>
          if formal.None? { return false; }
        case Array(b) =>
          var all := AllLiterals(b);
          if !all { return false; }
        case _ =>
      }
      t := t + 1;
    }
    r := true;
  }

  /** One token of the loop: the tokens it puts in place of t, all but the first to be looked at next. */
  lemma {:induction false} FlattenStep(done: seq<Token>, t: Token, rest: seq<Token>)
    ensures t.Array? && !Literal(t.body) ==>
              done + Flattened([t] + rest) == (done + [LSQ]) + Flattened(t.body + [RSQ] + rest)
              && Size(t.body + [RSQ] + rest) < Size([t] + rest)
    ensures t.Array? && Literal(t.body) ==> done + Flattened([t] + rest) == (done + [Array(Flattened(t.body))]) + Flattened(rest)
    ensures t.Proc? ==> done + Flattened([t] + rest) == (done + [Proc(Flattened(t.body))]) + Flattened(rest)
    ensures !t.Array? && !t.Proc? ==> done + Flattened([t] + rest) == (done + [t]) + Flattened(rest)
    ensures Size(rest) < Size([t] + rest) && ((t.Array? || t.Proc?) ==> Size(t.body) < Size([t] + rest))
  {
    assert ([t] + rest)[1..] == rest;
    if t.Array? {
      SpliceShrinks(t.body, rest);
    }
  }

  method FlattenSomeArrays(body: seq<Token>) returns (list: seq<Token>)
    ensures list == Flattened(body)
    decreases Size(body)
  {
    hide Flattened, Size, Weight, Literal;
    list := body;
    var t := 0;
    assert list[..0] == [] && list[0..] == list && [] + Flattened(list) == Flattened(list);
    while t < |list|
      invariant 0 <= t <= |list| && Size(list[t..]) <= Size(body)
      invariant list[..t] + Flattened(list[t..]) == Flattened(body)
      decreases Size(list[t..])
    {
      ghost var done, here, rest := list[..t], list[t], list[t + 1..];
      assert list[t..] == [here] + rest;
      FlattenStep(done, here, rest);
      if list[t].Array? {
        var all := AllLiterals(list[t].body);
        if !all {
          list := list[..t] + [LSQ] + list[t].body + [RSQ] + list[t + 1..];
          assert list[t + 1..] == here.body + [RSQ] + rest && list[..t + 1] == done + [LSQ];
        } else {
          var inner := FlattenSomeArrays(list[t].body);
          list := list[t := Array(inner)];
          assert list[t + 1..] == rest && list[..t + 1] == done + [Array(inner)];
        }
      } else if list[t].Proc? {
        var inner := FlattenSomeArrays(list[t].body);
        list := list[t := Proc(inner)];
        assert list[t + 1..] == rest && list[..t + 1] == done + [Proc(inner)];
      } else {
        assert list[..t + 1] == done + [here];
      }
      t := t + 1;
    }
    FlattenedNothing();
    assert list[..t] == list && list[t..] == [] && list + [] == list;
  }

  lemma {:induction false} FlattenedNothing()
    ensures Flattened([]) == []
  {
  }

  // ----- which arrays stay -----

  /** The tokens of a body and of the arrays in it, at any depth; not those of procedures. */
  function InArrays(body: seq<Token>): seq<Token> {
    if body == [] then []
    else [body[0]] + (if body[0].Array? then InArrays(body[0].body) else []) + InArrays(body[1..])
  }

  lemma {:induction false} LiteralMeans(body: seq<Token>)
    ensures Literal(body) <==> forall t :: t in InArrays(body) && t.Name? ==> t.formal.Some?
  {
    if body != [] {
      if body[0].Array? { LiteralMeans(body[0].body); }
      LiteralMeans(body[1..]);
      assert body[0] in InArrays(body);
      forall t ensures t in InArrays(body) <==> t == body[0] || (body[0].Array? && t in InArrays(body[0].body)) || t in InArrays(body[1..]) {}
    }
  }

  lemma {:induction false} FlattenedFirst(t: Token, rest: seq<Token>)
    ensures t.Array? && !Literal(t.body) ==>
              Flattened([t] + rest) == [LSQ] + Flattened(t.body + [RSQ] + rest) && Size(t.body + [RSQ] + rest) < Size([t] + rest)
    ensures !(t.Array? && !Literal(t.body)) ==>
              Flattened([t] + rest) == [if t.Array? then Array(Flattened(t.body)) else if t.Proc? then Proc(Flattened(t.body)) else t] + Flattened(rest)
    ensures Size(rest) < Size([t] + rest)
  {
    assert ([t] + rest)[1..] == rest;
    if t.Array? { SpliceShrinks(t.body, rest); }
  }

  lemma {:induction false} FlattenedParts(a: seq<Token>, b: seq<Token>)
    ensures Flattened(a + b) == Flattened(a) + Flattened(b)
    decreases Size(a), 1
  {
    hide Flattened, Size, Literal;
    if a == [] {
      FlattenedBracket();
      assert a + b == b && [] + Flattened(b) == Flattened(b);
    } else {
      var t, rest := a[0], a[1..];
      FlattenedSplit(a, t, rest, b);
    }
  }

  lemma {:induction false} FlattenedSplit(a: seq<Token>, t: Token, rest: seq<Token>, b: seq<Token>)
    requires a == [t] + rest
    ensures Flattened(a + b) == Flattened(a) + Flattened(b)
    decreases Size(a), 0
  {
    hide Flattened, Size, Literal;
    FlattenedFirst(t, rest);
    FlattenedFirst(t, rest + b);
    assert a + b == [t] + (rest + b);
    if t.Array? && !Literal(t.body) {
      var spliced := t.body + [RSQ] + rest;
      assert t.body + [RSQ] + (rest + b) == spliced + b;
      FlattenedParts(spliced, b);
      assert [LSQ] + (Flattened(spliced) + Flattened(b)) == ([LSQ] + Flattened(spliced)) + Flattened(b);
    } else {
      FlattenedParts(rest, b);
    }
  }

  lemma {:induction false} FlattenedBracket()
    ensures Flattened([RSQ]) == [RSQ] && Flattened([]) == []
  {
    assert [RSQ][1..] == [];
  }

  /** An array stays, with its elements flattened, exactly when no token in it or in the arrays in it is a name that is not a
      parameter; otherwise its elements stand between brackets.  Everything else stays where it is, procedures with their
      bodies flattened. */
  lemma {:induction false} EachToken(t: Token, rest: seq<Token>)
    ensures Flattened([t] + rest) ==
            (if t.Array? then
               if forall x :: x in InArrays(t.body) && x.Name? ==> x.formal.Some? then [Array(Flattened(t.body))]
               else [Name("[", None)] + Flattened(t.body) + [Name("]", None)]
             else if t.Proc? then [Proc(Flattened(t.body))]
             else [t]) + Flattened(rest)
  {
    hide Flattened, Literal, InArrays, Size;
    FlattenedFirst(t, rest);
    if t.Array? {
      LiteralMeans(t.body);
      if !Literal(t.body) {
        FlattenedParts(t.body + [RSQ], rest);
        FlattenedParts(t.body, [RSQ]);
        FlattenedBracket();
      }
    }
  }

  // ----- every array read as [ ... ] -----

  /** The body with every array, also inside procedures, written as [ ... ]. */
  function Expanded(body: seq<Token>): seq<Token> {
    if body == [] then [] else ExpandedToken(body[0]) + Expanded(body[1..])
  }

  function ExpandedToken(t: Token): seq<Token> {
    match t
    case Array(b) => [LSQ] + Expanded(b) + [RSQ]
    case Proc(b) => [Proc(Expanded(b))]
    case _ => [t]
  }

  lemma {:induction false} ExpandedJoin(a: seq<Token>, b: seq<Token>)
    ensures Expanded(a + b) == Expanded(a) + Expanded(b)
  {
    if a == [] {
      assert a + b == b;
    } else {
      assert (a + b)[1..] == a[1..] + b;
      ExpandedJoin(a[1..], b);
    }
  }

  lemma {:induction false} SpliceExpands(b: seq<Token>, rest: seq<Token>)
    ensures Expanded(b + [RSQ] + rest) == Expanded(b) + [RSQ] + Expanded(rest)
  {
    ExpandedJoin(b + [RSQ], rest);
    ExpandedJoin(b, [RSQ]);
    assert Expanded([RSQ]) == [RSQ] by { assert [RSQ][1..] == []; }
  }

  lemma {:induction false} ExpandedCons(t: Token, rest: seq<Token>)
    ensures Expanded([t] + rest) == ExpandedToken(t) + Expanded(rest)
  {
    assert ([t] + rest)[1..] == rest;
  }

  /** Flattening does not change what the body says. */
  lemma {:induction false} FlattenedExpands(body: seq<Token>)
    ensures Expanded(Flattened(body)) == Expanded(body)
    decreases Size(body)
  {
    hide Expanded, Flattened, Size, Literal;
    if body == [] {
      FlattenedNothing();
    } else {
      var t, rest := body[0], body[1..];
      assert body == [t] + rest;
      assert forall s: seq<Token> :: [] + s == s;
      FlattenStep([], t, rest);
      ExpandedCons(t, rest);
      if t.Array? && !Literal(t.body) {
        var spliced := t.body + [RSQ] + rest;
        FlattenedExpands(spliced);
        SpliceExpands(t.body, rest);
        ExpandedCons(LSQ, Flattened(spliced));
        assert [LSQ] + (Expanded(t.body) + [RSQ] + Expanded(rest)) == ([LSQ] + Expanded(t.body) + [RSQ]) + Expanded(rest);
      } else {
        FlattenedExpands(rest);
        if t.Array? || t.Proc? { FlattenedExpands(t.body); }
        ExpandedCons(if t.Array? then Array(Flattened(t.body)) else if t.Proc? then Proc(Flattened(t.body)) else t, Flattened(rest));
      }
    }
  }

  /** Every array, also inside procedures, satisfies AllLiterals. */
  predicate OnlyConstants(body: seq<Token>) {
    body == [] || (ConstantToken(body[0]) && OnlyConstants(body[1..]))
  }

  predicate ConstantToken(t: Token) {
    match t
    case Array(b) => Literal(b) && OnlyConstants(b)
    case Proc(b) => OnlyConstants(b)
    case _ => true
  }

  /** All arrays left by flattening are constants. */
  lemma {:induction false} FlattenedIsConstant(body: seq<Token>)
    ensures OnlyConstants(Flattened(body)) && (Literal(body) ==> Literal(Flattened(body)))
    decreases Size(body)
  {
    if body != [] {
      var t, rest := body[0], body[1..];
      assert body == [t] + rest;
      FlattenStep([], t, rest);
      if t.Array? && !Literal(t.body) {
        assert !LiteralToken(body[0]);
        FlattenedIsConstant(t.body + [RSQ] + rest);
      } else {
        FlattenedIsConstant(rest);
        if t.Array? || t.Proc? { FlattenedIsConstant(t.body); }
      }
    }
  }

  // ----- executing a body -----

  datatype Value = Mark | Data(token: Token) | ArrayOf(elements: seq<Value>) | Procedure(code: seq<Token>)

  /** What the operators and the names held by char formals do to the operand stack; no stack on an error. */
  type Operators = (Token, seq<Value>) -> Option<seq<Value>>

  /** The object that a token is when it is not executed.  A procedure is known by what it says. */
  function DataOf(t: Token): Value {
    match t
    case Array(b) => ArrayOf(DatasOf(b))
    case Proc(b) => Procedure(Expanded(b))
    case _ => Data(t)
  }

  function DatasOf(body: seq<Token>): seq<Value> {
    if body == [] then [] else [DataOf(body[0])] + DatasOf(body[1..])
  }

  /** The ] operator: everything above the topmost mark becomes an array. */
  function Collect(stack: seq<Value>, above: seq<Value>): Option<seq<Value>>
    decreases |stack|
  {
    if stack == [] then None
    else
      var n := |stack| - 1;
      if stack[n].Mark? then Some(stack[..n] + [ArrayOf(above)]) else Collect(stack[..n], [stack[n]] + above)
  }

  function Exec(ops: Operators, t: Token, stack: seq<Value>): Option<seq<Value>> {
    if t == LSQ then Some(stack + [Mark])
    else if t == RSQ then Collect(stack, [])
    else if Executed(t) then ops(t, stack)
    else Some(stack + [DataOf(t)])
  }

  function Run(ops: Operators, body: seq<Token>, stack: seq<Value>): Option<seq<Value>>
    decreases |body|
  {
    if body == [] then Some(stack) else
    match Exec(ops, body[0], stack)
    case None => None
    case Some(s) => Run(ops, body[1..], s)
  }

  lemma {:induction false} RunJoin(ops: Operators, a: seq<Token>, b: seq<Token>, stack: seq<Value>)
    ensures Run(ops, a + b, stack) == match Run(ops, a, stack) case None => None case Some(s) => Run(ops, b, s)
    decreases |a|
  {
    if a == [] {
      assert a + b == b;
    } else {
      assert (a + b)[1..] == a[1..] + b;
      if Exec(ops, a[0], stack).Some? { RunJoin(ops, a[1..], b, Exec(ops, a[0], stack).value); }
    }
  }

  lemma {:induction false} RunOne(ops: Operators, t: Token, stack: seq<Value>)
    ensures Run(ops, [t], stack) == Exec(ops, t, stack)
  {
    assert [t][1..] == [];
  }

  lemma {:induction false} CollectOver(stack: seq<Value>, values: seq<Value>, above: seq<Value>)
    requires forall v :: v in values ==> !v.Mark?
    ensures Collect(stack + [Mark] + values, above) == Some(stack + [ArrayOf(values + above)])
    decreases |values|
  {
    var s, n := stack + [Mark] + values, |values| - 1;
    if values == [] {
      assert s == stack + [Mark] && s[..|s| - 1] == stack && values + above == above;
    } else {
      assert s[|s| - 1] == values[n] && s[..|s| - 1] == stack + [Mark] + values[..n];
      CollectOver(stack, values[..n], [values[n]] + above);
      assert values[..n] + ([values[n]] + above) == values + above;
    }
  }

  /** Nothing that is executed stands in the list or in the arrays in it. */
  predicate Inert(body: seq<Token>) {
    body == [] || (InertToken(body[0]) && Inert(body[1..]))
  }

  predicate InertToken(t: Token) {
    !Executed(t) && (t.Array? ==> Inert(t.body))
  }

  lemma {:induction false} NoMarks(body: seq<Token>)
    ensures forall v :: v in DatasOf(body) ==> !v.Mark?
  {
    if body != [] { NoMarks(body[1..]); }
  }

  lemma {:induction false} NothingRuns(ops: Operators, stack: seq<Value>)
    ensures Run(ops, [], stack) == Some(stack) == Some(stack + [])
  {
    assert stack + [] == stack;
  }

  /** Executing [ ... ] for an array with nothing to execute in it pushes the array. */
  lemma {:induction false} InertRuns(ops: Operators, body: seq<Token>, stack: seq<Value>)
    requires Inert(body)
    ensures Run(ops, Expanded(body), stack) == Some(stack + DatasOf(body))
    decreases Size(body)
  {
    hide Run, InertToken, ExpandedToken, DataOf, Weight;
    if body == [] {
      NothingRuns(ops, stack);
    } else {
      var t, rest := body[0], body[1..];
      assert Size(body) == Weight(t) + Size(rest);
      InertTokenRuns(ops, t, stack);
      RunJoin(ops, ExpandedToken(t), Expanded(rest), stack);
      InertRuns(ops, rest, stack + [DataOf(t)]);
      assert stack + [DataOf(t)] + DatasOf(rest) == stack + DatasOf(body);
    }
  }

  lemma {:induction false} InertTokenRuns(ops: Operators, t: Token, stack: seq<Value>)
    requires InertToken(t)
    ensures Run(ops, ExpandedToken(t), stack) == Some(stack + [DataOf(t)])
    decreases Weight(t), 0
  {
    if t.Array? {
      InertRuns(ops, t.body, stack + [Mark]);
      var e := Expanded(t.body);
      RunOne(ops, LSQ, stack);
      RunJoin(ops, [LSQ] + e, [RSQ], stack);
      RunJoin(ops, [LSQ], e, stack);
      NoMarks(t.body);
      CollectOver(stack, DatasOf(t.body), []);
      assert DatasOf(t.body) + [] == DatasOf(t.body);
      RunOne(ops, RSQ, stack + [Mark] + DatasOf(t.body));
    } else if t.Proc? {
      ExpandedTwice(t.body);
      assert ExpandedToken(t) == [Proc(Expanded(t.body))] && DataOf(Proc(Expanded(t.body))) == DataOf(t);
      RunOne(ops, Proc(Expanded(t.body)), stack);
    } else {
      RunOne(ops, t, stack);
    }
  }

  lemma {:induction false} ExpandedTwice(body: seq<Token>)
    ensures Expanded(Expanded(body)) == Expanded(body)
    decreases Size(body)
  {
    if body != [] {
      var t, rest := body[0], body[1..];
      assert Size(body) == Weight(t) + Size(rest);
      ExpandedTwice(rest);
      ExpandedJoin(ExpandedToken(t), Expanded(rest));
      if t.Array? {
        ExpandedTwice(t.body);
        ExpandedJoin([LSQ] + Expanded(t.body), [RSQ]);
        ExpandedJoin([LSQ], Expanded(t.body));
        assert Expanded([RSQ]) == [RSQ] && Expanded([LSQ]) == [LSQ];
      } else if t.Proc? {
        ExpandedTwice(t.body);
      }
    }
  }

  // ----- when flattening keeps the meaning -----

  /** No array that stays a constant has an executable name given by a char formal in it. */
  predicate Faithful(body: seq<Token>)
    decreases Size(body)
  {
    if body == [] then true else
    assert Size(body) == Weight(body[0]) + Size(body[1..]);
    (body[0].Array? ==>
       assert Weight(body[0]) == 2 + Size(body[0].body);
       if Literal(body[0].body) then Inert(body[0].body) else Faithful(body[0].body))
    && Faithful(body[1..])
  }

  /** Every array of the list itself can be pushed instead of executed. */
  predicate InertArrays(body: seq<Token>) {
    forall k :: 0 <= k < |body| && body[k].Array? ==> Inert(body[k].body)
  }

  lemma {:induction false} FaithfulJoin(a: seq<Token>, b: seq<Token>)
    ensures Faithful(a + b) <==> Faithful(a) && Faithful(b)
  {
    if a == [] {
      assert a + b == b;
    } else {
      assert (a + b)[1..] == a[1..] + b;
      FaithfulJoin(a[1..], b);
    }
  }

  lemma {:induction false} InertFlattened(body: seq<Token>)
    requires Literal(body)
    ensures Inert(Flattened(body)) <==> Inert(body)
    decreases Size(body)
  {
    if body != [] {
      var t, rest := body[0], body[1..];
      assert body == [t] + rest;
      FlattenStep([], t, rest);
      InertFlattened(rest);
      if t.Array? { InertFlattened(t.body); }
      assert Flattened(body)[1..] == Flattened(rest);
    }
  }

  /** The arrays left can all be pushed exactly when the source is faithful. */
  lemma {:induction false} FaithfulFlattened(body: seq<Token>)
    ensures InertArrays(Flattened(body)) <==> Faithful(body)
    decreases Size(body)
  {
    if body != [] {
      var t, rest := body[0], body[1..];
      assert body == [t] + rest;
      FlattenStep([], t, rest);
      if t.Array? && !Literal(t.body) {
        var spliced := t.body + [RSQ] + rest;
        FaithfulFlattened(spliced);
        FaithfulJoin(t.body + [RSQ], rest);
        FaithfulJoin(t.body, [RSQ]);
        assert Faithful([RSQ]);
        InertArraysCons(LSQ, Flattened(spliced));
        assert Flattened(body) == [LSQ] + Flattened(spliced);
      } else {
        FaithfulFlattened(rest);
        if t.Array? { InertFlattened(t.body); }
        InertArraysCons(Flattened(body)[0], Flattened(rest));
        assert Flattened(body) == [Flattened(body)[0]] + Flattened(rest);
      }
    }
  }

  lemma {:induction false} InertArraysCons(t: Token, rest: seq<Token>)
    ensures InertArrays([t] + rest) <==> (t.Array? ==> Inert(t.body)) && InertArrays(rest)
  {
    var l := [t] + rest;
    assert forall k :: 0 <= k < |rest| ==> l[k + 1] == rest[k];
    if InertArrays(l) {
      assert t.Array? ==> Inert(l[0].body);
      forall k | 0 <= k < |rest| && rest[k].Array? ensures Inert(rest[k].body) { assert l[k + 1].Array?; }
    }
  }

  /** A list whose arrays can be pushed runs like the list with every array written as [ ... ]. */
  lemma {:induction false} PushedRuns(ops: Operators, list: seq<Token>, stack: seq<Value>)
    requires InertArrays(list)
    ensures Run(ops, list, stack) == Run(ops, Expanded(list), stack)
    decreases |list|
  {
    if list != [] {
      var t, rest := list[0], list[1..];
      assert list == [t] + rest;
      InertArraysCons(t, rest);
      RunJoin(ops, ExpandedToken(t), Expanded(rest), stack);
      if !Executed(t) {
        InertTokenRuns(ops, t, stack);
        PushedRuns(ops, rest, stack + [DataOf(t)]);
      } else {
        RunOne(ops, t, stack);
        if Exec(ops, t, stack).Some? { PushedRuns(ops, rest, Exec(ops, t, stack).value); }
      }
    }
  }

  /** Whatever the operators do, the flattened body leaves the stack that the body leaves with arrays read as [ ... ]. */
  lemma {:induction false} FlatteningKeeps(ops: Operators, body: seq<Token>, stack: seq<Value>)
    requires Faithful(body)
    ensures Run(ops, Flattened(body), stack) == Run(ops, Expanded(body), stack)
  {
    FaithfulFlattened(body);
    FlattenedExpands(body);
    PushedRuns(ops, Flattened(body), stack);
  }

  // ----- and only then -----

  /** Operators that leave a procedure behind whenever anything is executed. */
  function Noticed(t: Token, stack: seq<Value>): Option<seq<Value>> {
    Some(stack + [Procedure([])])
  }

  /** No executable object lies on the stack or in an array on it. */
  predicate Plain(stack: seq<Value>) {
    stack == [] || (PlainValue(stack[0]) && Plain(stack[1..]))
  }

  predicate PlainValue(v: Value) {
    match v
    case Data(t) => !Executed(t)
    case ArrayOf(e) => Plain(e)
    case _ => true
  }

  lemma {:induction false} PlainJoin(a: seq<Value>, b: seq<Value>)
    ensures Plain(a + b) <==> Plain(a) && Plain(b)
  {
    if a == [] {
      assert a + b == b;
    } else {
      assert (a + b)[1..] == a[1..] + b;
      PlainJoin(a[1..], b);
    }
  }

  lemma {:induction false} PlainOne(a: seq<Value>, v: Value)
    ensures Plain(a + [v]) <==> Plain(a) && PlainValue(v)
  {
    PlainJoin(a, [v]);
    assert [v][1..] == [];
  }

  function Marks(stack: seq<Value>): nat {
    if stack == [] then 0 else Marks(stack[..|stack| - 1]) + if stack[|stack| - 1].Mark? then 1 else 0
  }

  lemma {:induction false} CollectPlain(stack: seq<Value>, above: seq<Value>)
    ensures Collect(stack, above).Some? <==> Marks(stack) > 0
    ensures Collect(stack, above).Some? ==>
              (Plain(Collect(stack, above).value) <==> Plain(stack) && Plain(above)) && Marks(Collect(stack, above).value) == Marks(stack) - 1
    decreases |stack|
  {
    if stack != [] {
      var n := |stack| - 1;
      assert stack == stack[..n] + [stack[n]];
      PlainOne(stack[..n], stack[n]);
      if stack[n].Mark? {
        PlainOne(stack[..n], ArrayOf(above));
        assert (stack[..n] + [ArrayOf(above)])[..n] == stack[..n];
      } else {
        PlainJoin([stack[n]], above);
        assert [stack[n]][1..] == [];
        CollectPlain(stack[..n], [stack[n]] + above);
      }
    }
  }

  /** One token under these operators. */
  lemma {:induction false} NoticedStep(t: Token, stack: seq<Value>)
    requires Marks(stack) > 0
    ensures var r := Exec(Noticed, t, stack);
            r.Some? && Marks(r.value) >= Marks(stack) - 1
            && (Plain(r.value) <==> Plain(stack) && (t.Array? ==> PlainValue(DataOf(t))))
  {
    if t == RSQ {
      CollectPlain(stack, []);
    } else {
      var v := if t == LSQ then Mark else if Executed(t) then Procedure([]) else DataOf(t);
      PlainOne(stack, v);
      assert (stack + [v])[..|stack|] == stack;
    }
  }

  lemma {:induction false} InertIsPlain(body: seq<Token>)
    ensures Plain(DatasOf(body)) <==> Inert(body)
  {
    if body != [] {
      InertIsPlain(body[1..]);
      if body[0].Array? { InertIsPlain(body[0].body); }
      assert DatasOf(body)[1..] == DatasOf(body[1..]);
    }
  }

  /** The run shows whether an array that was pushed has something to execute in it. */
  lemma {:induction false} NoticedRun(list: seq<Token>, stack: seq<Value>)
    requires Marks(stack) >= |list|
    ensures Run(Noticed, list, stack).Some?
    ensures Plain(Run(Noticed, list, stack).value) <==> Plain(stack) && InertArrays(list)
    decreases |list|
  {
    if list != [] {
      var t, rest := list[0], list[1..];
      assert list == [t] + rest;
      NoticedStep(t, stack);
      InertArraysCons(t, rest);
      if t.Array? { InertIsPlain(t.body); }
      NoticedRun(rest, Exec(Noticed, t, stack).value);
    }
  }

  lemma {:induction false} ExpandedHasNoArrays(body: seq<Token>)
    ensures InertArrays(Expanded(body)) && forall k :: 0 <= k < |Expanded(body)| ==> !Expanded(body)[k].Array?
  {
    if body != [] {
      ExpandedHasNoArrays(body[1..]);
      if body[0].Array? { ExpandedHasNoArrays(body[0].body); }
    }
  }

  lemma {:induction false} OnlyMarks(n: nat)
    ensures Marks(seq(n, _ => Mark)) == n && Plain(seq(n, _ => Mark))
  {
    if n > 0 {
      var s := seq(n, _ => Mark);
      OnlyMarks(n - 1);
      assert s[..n - 1] == seq(n - 1, _ => Mark) && s == seq(n - 1, _ => Mark) + [Mark];
      PlainOne(seq(n - 1, _ => Mark), Mark);
    }
  }

  ghost predicate KeepsMeaning(body: seq<Token>) {
    forall ops: Operators, stack: seq<Value> :: Run(ops, Flattened(body), stack) == Run(ops, Expanded(body), stack)
  }

  /** Flattening keeps the meaning of a body, for all operators and stacks, exactly when the body is faithful. */
  lemma {:induction false} FlatteningKeepsIff(body: seq<Token>)
    ensures Faithful(body) <==> KeepsMeaning(body)
  {
    if Faithful(body) {
      forall ops: Operators, stack: seq<Value> ensures Run(ops, Flattened(body), stack) == Run(ops, Expanded(body), stack) {
        FlatteningKeeps(ops, body, stack);
      }
    } else {
      var n := |Flattened(body)| + |Expanded(body)|;
      var stack := seq(n, _ => Mark);
      OnlyMarks(n);
      FaithfulFlattened(body);
      NoticedRun(Flattened(body), stack);
      ExpandedHasNoArrays(body);
      NoticedRun(Expanded(body), stack);
      assert Run(Noticed, Flattened(body), stack) != Run(Noticed, Expanded(body), stack);
    }
  }

  /** An array of executable names that come from a char formal stays a constant and is not executed any more. */
  lemma {:induction false} CharFormalIsNotExecuted(name: string)
    ensures var body := [Array([Name(name, Some(Formal(name, true)))])];
            Flattened(body) == body && !KeepsMeaning(body)
  {
    var inner := [Name(name, Some(Formal(name, true)))];
    var body := [Array(inner)];
    var none: seq<Token> := [];
    assert inner[1..] == none && body[1..] == none;
    assert Literal(none) && Flattened(none) == none;
    assert LiteralToken(inner[0]) && Literal(inner);
    assert Executed(inner[0]) && !InertToken(inner[0]) && !Inert(inner);
    assert Flattened(inner) == [inner[0]] + none == inner;
    assert Flattened(body) == [Array(Flattened(inner))] + none == body;
    assert !Faithful(body);
    FlatteningKeepsIff(body);
  }
}
