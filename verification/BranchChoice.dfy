/** Which lines find_includes executes, read off the log of a run: one branch of every group, and of the other directives
    each its own effect. */
module BranchChoice {
  import opened DirectiveScanner

  /** A further part of a group: its #elif or #else line, and the text of the one #define in it. */
  datatype Branch = Branch(line: Line, text: string)

  /** Only #elif lines, and perhaps an #else as the last. */
  predicate InOrder(branches: seq<Branch>) {
    forall k :: 0 <= k < |branches| ==> branches[k].line.Elif? || (k == |branches| - 1 && branches[k].line.Else?)
  }

  /** The lines of a group, written one after the other. */
  function GroupLines(first: Line, text: string, branches: seq<Branch>, raw: string): seq<Line> {
    [first, Define(text)] + BranchLines(branches, raw)
  }

  function BranchLines(branches: seq<Branch>, raw: string): seq<Line> {
    if branches == [] then [Endif(raw)]
    else [branches[0].line, Define(branches[0].text)] + BranchLines(branches[1..], raw)
  }

  /** What has been asked when the k-th of these lines is reached. */
  function Questions(branches: seq<Branch>, k: nat): History
    requires k <= |branches|
  {
    if k == 0 then [] else Questions(branches, k - 1) + match branches[k - 1].line case Elif(c, _) => [Evaluated(c)] case _ => []
  }

  /** The definitions in a part of the log. */
  function Definitions(log: History): History {
    if log == [] then [] else (if log[0].Defined? then [log[0]] else []) + Definitions(log[1..])
  }

  lemma {:induction false} DefinitionsJoin(a: History, b: History)
    ensures Definitions(a + b) == Definitions(a) + Definitions(b)
  {
    if a == [] {
      assert a + b == b;
    } else {
      var first := if a[0].Defined? then [a[0]] else [];
      assert (a + b)[1..] == a[1..] + b && (a + b)[0] == a[0];
      DefinitionsJoin(a[1..], b);
      assert first + (Definitions(a[1..]) + Definitions(b)) == (first + Definitions(a[1..])) + Definitions(b);
    }
  }

  lemma {:induction false} NoDefinitions(a: History)
    requires forall i :: 0 <= i < |a| ==> a[i].Evaluated? || a[i].LookedUp?
    ensures Definitions(a) == []
  {
    if a != [] { NoDefinitions(a[1..]); }
  }

  // ----- the tree of such a group -----

  function OneDefine(text: string): Items {
    Cons(Single(Define(text)), Nil)
  }

  function BranchTail(branches: seq<Branch>, raw: string): Tail {
    if branches == [] then EndPart(Some(Endif(raw)))
    else if branches[0].line.Else? then ElsePart(branches[0].line, OneDefine(branches[0].text), Some(Endif(raw)))
    else ElifPart(branches[0].line, OneDefine(branches[0].text), BranchTail(branches[1..], raw))
  }

  lemma {:induction false} OneDefineLines(text: string, rest: seq<Line>)
    ensures Nested(OneDefine(text)) && Lines(OneDefine(text), rest) == [Define(text)] + rest
  {
    assert Lines(Nil, rest) == rest && Nested(Nil);
  }

  lemma {:induction false} TailIsBranches(branches: seq<Branch>, raw: string)
    requires InOrder(branches)
    ensures NestedTail(BranchTail(branches, raw)) && TailLines(BranchTail(branches, raw), []) == BranchLines(branches, raw)
  {
    assert Ending(Some(Endif(raw)), []) == [Endif(raw)];
    if branches != [] {
      var b := branches[0];
      if b.line.Else? {
        assert branches[1..] == [] && BranchLines([], raw) == [Endif(raw)];
        OneDefineLines(b.text, [Endif(raw)]);
        assert BranchTail(branches, raw) == ElsePart(b.line, OneDefine(b.text), Some(Endif(raw)));
      } else {
        TailIsBranches(branches[1..], raw);
        OneDefineLines(b.text, BranchLines(branches[1..], raw));
      }
      assert [b.line] + ([Define(b.text)] + BranchLines(branches[1..], raw)) == BranchLines(branches, raw);
    }
  }

  lemma {:induction false} GroupIsRead(first: Line, text: string, branches: seq<Branch>, raw: string)
    requires Opens(first) && InOrder(branches)
    ensures ParseFile(GroupLines(first, text, branches, raw)) == Cons(Group(first, OneDefine(text), BranchTail(branches, raw)), Nil)
  {
    TailIsBranches(branches, raw);
    var items := Cons(Group(first, OneDefine(text), BranchTail(branches, raw)), Nil);
    assert [first] + ([Define(text)] + BranchLines(branches, raw)) == GroupLines(first, text, branches, raw);
    OneDefineLines(text, BranchLines(branches, raw));
    assert Lines(Nil, []) == [] && Nested(Nil);
    assert Lines(items, []) == [first] + Lines(OneDefine(text), TailLines(BranchTail(branches, raw), []));
    assert Lines(items, []) == GroupLines(first, text, branches, raw);
    FileOfLines(items);
  }

  // ----- the branch that is executed -----

  /** The run r has added to s questions and these definitions. */
  predicate Adds(s: Run, r: Run, definitions: History) {
    s.log <= r.log && Definitions(r.log[|s.log|..]) == definitions
  }

  lemma {:induction false} AddsMore(s: Run, r: Run, q: Run, a: History, b: History)
    requires Adds(s, r, a) && Adds(r, q, b)
    ensures Adds(s, q, a + b)
  {
    assert q.log[|s.log|..] == r.log[|s.log|..] + q.log[|r.log|..];
    DefinitionsJoin(r.log[|s.log|..], q.log[|r.log|..]);
  }

  lemma {:induction false} PassAddsNothing(s: Run, tail: Tail)
    ensures Adds(s, PassTail(s, tail), [])
  {
    match tail
    case EndPart(_) =>
    case ElifPart(_, body, rest) =>
      SkipOnlyEvaluates(s, body);
      TailOnlyEvaluates(SkipItems(s, body), rest);
      NoDefinitions(PassTail(s, tail).log[|s.log|..]);
    case ElsePart(_, body, end) =>
      SkipOnlyEvaluates(s, body);
      NoDefinitions(PassTail(s, tail).log[|s.log|..]);
  }

  lemma {:induction false} OneDefineAdds(w: World, s: Run, f: File, text: string)
    ensures ExecItems(w, s, f, OneDefine(text)) == Note(s, Defined(f, text))
    ensures Adds(s, Note(s, Defined(f, text)), [Defined(f, text)])
  {
    assert ExecItem(w, s, f, Single(Define(text))) == Note(s, Defined(f, text));
    ExecStep(w, s, f, Single(Define(text)), Nil);
    ExecStep(w, Note(s, Defined(f, text)), f, Single(Other), Nil);
    assert (s.log + [Defined(f, text)])[|s.log|..] == [Defined(f, text)];
    assert [Defined(f, text)][1..] == [];
  }

  lemma {:induction false} QuestionsCons(branches: seq<Branch>, k: nat)
    requires 0 < k <= |branches| && branches[0].line.Elif?
    ensures Questions(branches, k) == [Evaluated(branches[0].line.cond)] + Questions(branches[1..], k - 1)
  {
    if k > 1 {
      QuestionsCons(branches, k - 1);
      assert branches[1..][k - 2] == branches[k - 1];
    }
  }

  /** Part b is the first that is an #else, or whose condition holds when its line is reached; `log` has gone before. */
  predicate FirstHolding(w: World, log: History, branches: seq<Branch>, b: nat) {
    && b <= |branches|
    && (forall k :: 0 <= k < b ==> branches[k].line.Elif? && !w.holds(log + Questions(branches, k), branches[k].line.cond))
    && (b < |branches| && !branches[b].line.Else? ==> branches[b].line.Elif? && w.holds(log + Questions(branches, b), branches[b].line.cond))
  }

  lemma {:induction false} HoldingFirst(w: World, log: History, branches: seq<Branch>, b: nat)
    requires FirstHolding(w, log, branches, b) && InOrder(branches) && branches != []
    ensures branches[0].line.Elif? ==> (w.holds(log, branches[0].line.cond) <==> b == 0)
    ensures branches[0].line.Else? ==> b == 0
    ensures branches[0].line.Elif? || branches[0].line.Else?
  {
    assert log + Questions(branches, 0) == log;
  }

  lemma {:induction false} HoldingLater(w: World, log: History, branches: seq<Branch>, b: nat)
    requires FirstHolding(w, log, branches, b) && b > 0
    ensures branches[0].line.Elif? && FirstHolding(w, log + [Evaluated(branches[0].line.cond)], branches[1..], b - 1)
  {
    hide Questions;
    var more := log + [Evaluated(branches[0].line.cond)];
    forall k | 0 <= k < |branches[1..]| ensures more + Questions(branches[1..], k) == log + Questions(branches, k + 1) {
      AskedBefore(log, branches, k);
    }
  }

  lemma {:induction false} AskedBefore(log: History, branches: seq<Branch>, k: nat)
    requires k < |branches| && branches[0].line.Elif?
    ensures (log + [Evaluated(branches[0].line.cond)]) + Questions(branches[1..], k) == log + Questions(branches, k + 1)
  {
    QuestionsCons(branches, k + 1);
  }

  function Chosen(f: File, branches: seq<Branch>, b: nat): History {
    if b < |branches| then [Defined(f, branches[b].text)] else []
  }

  /** No condition has held yet: of the remaining parts just the first whose condition holds is executed. */
  lemma {:induction false} TailChoice(w: World, s: Run, f: File, branches: seq<Branch>, raw: string, b: nat)
    requires InOrder(branches) && FirstHolding(w, s.log, branches, b)
    ensures Adds(s, ExecTail(w, s, f, BranchTail(branches, raw)), Chosen(f, branches, b))
    decreases |branches|
  {
    hide ExecItems, ExecItem, ExecTail, PassTail, Adds, Peek, FirstHolding, Questions, BranchTail;
    TailStep(w, s, f, branches, raw);
    if branches == [] {
      NothingAdded(s);
    } else {
      HoldingFirst(w, s.log, branches, b);
      var line, text := branches[0].line, branches[0].text;
      if line.Else? {
        OneDefineAdds(w, s, f, text);
      } else {
        PeekAdds(s, line);
        var s1, rest := Peek(s, Some(line)), BranchTail(branches[1..], raw);
        if b == 0 {
          OneDefineRuns(w, s, s1, f, text, rest);
        } else {
          HoldingLater(w, s.log, branches, b);
          TailChoice(w, s1, f, branches[1..], raw, b - 1);
          AddsAfter(s, s1, ExecTail(w, s1, f, rest), Chosen(f, branches[1..], b - 1));
        }
      }
    }
  }

  lemma {:induction false} AddsAfter(s: Run, s1: Run, r: Run, added: History)
    requires Adds(s, s1, []) && Adds(s1, r, added)
    ensures Adds(s, r, added)
  {
    AddsMore(s, s1, r, [], added);
    assert [] + added == added;
  }

  /** The definition of a part is executed, and the rest of the group passed over. */
  lemma {:induction false} OneDefineRuns(w: World, s: Run, s1: Run, f: File, text: string, rest: Tail)
    requires Adds(s, s1, [])
    ensures Adds(s, PassTail(ExecItems(w, s1, f, OneDefine(text)), rest), [Defined(f, text)])
  {
    hide ExecItems, PassTail, Adds;
    OneDefineAdds(w, s1, f, text);
    var s2 := Note(s1, Defined(f, text));
    PassAddsNothing(s2, rest);
    AddsMore(s1, s2, PassTail(s2, rest), [Defined(f, text)], []);
    assert [Defined(f, text)] + [] == [Defined(f, text)];
    AddsAfter(s, s1, PassTail(s2, rest), [Defined(f, text)]);
  }

  lemma {:induction false} TailStep(w: World, s: Run, f: File, branches: seq<Branch>, raw: string)
    requires InOrder(branches)
    ensures branches == [] ==> ExecTail(w, s, f, BranchTail(branches, raw)) == s
    ensures branches != [] && branches[0].line.Else? ==>
              |branches| == 1 && ExecTail(w, s, f, BranchTail(branches, raw)) == ExecItems(w, s, f, OneDefine(branches[0].text))
    ensures branches != [] && branches[0].line.Elif? ==>
              var s1, rest := Peek(s, Some(branches[0].line)), BranchTail(branches[1..], raw);
              ExecTail(w, s, f, BranchTail(branches, raw)) ==
              if w.holds(s.log, branches[0].line.cond) then PassTail(ExecItems(w, s1, f, OneDefine(branches[0].text)), rest)
              else ExecTail(w, s1, f, rest)
  {
    hide ExecItems, PassTail;
    if branches != [] { SkipOneDefine(Peek(s, Some(branches[0].line)), branches[0].text); }
  }

  lemma {:induction false} SkipOneDefine(s: Run, text: string)
    ensures SkipItems(s, OneDefine(text)) == s
  {
    assert SkipItems(s, Nil) == s;
  }

  lemma {:induction false} NothingAdded(s: Run)
    ensures Adds(s, s, [])
  {
    assert s.log[|s.log|..] == [];
  }

  lemma {:induction false} PeekAdds(s: Run, line: Line)
    requires line.Elif?
    ensures Peek(s, Some(line)).log == s.log + [Evaluated(line.cond)] && Adds(s, Peek(s, Some(line)), [])
  {
    assert (s.log + [Evaluated(line.cond)])[|s.log|..] == [Evaluated(line.cond)];
    NoDefinitions([Evaluated(line.cond)]);
  }

  lemma {:induction false} AskedAdds(s: Run, first: Line)
    requires Opens(first)
    ensures Asked(s, first).log == s.log + [if first.If? then Evaluated(first.cond) else LookedUp(first.name)] && Adds(s, Asked(s, first), [])
  {
    var e := if first.If? then Evaluated(first.cond) else LookedUp(first.name);
    assert (s.log + [e])[|s.log|..] == [e];
    NoDefinitions([e]);
  }

  /** A group with one definition in each part.  Its first line asks whether a condition holds (#if), a name is known (#ifdef)
      or a name is not known (#ifndef); if so, the only definition added is that of the first part.  Otherwise it is that of
      part b, the first that is an #else or whose condition holds when its line is reached, or none. */
  lemma {:induction false} OneBranchIsExecuted(w: World, s: Run, f: File, first: Line, text: string, branches: seq<Branch>, raw: string, b: nat)
    requires (first.If? || first.IfDef? || first.IfNDef?) && InOrder(branches) && b <= |branches|
    requires var asked := s.log + [if first.If? then Evaluated(first.cond) else LookedUp(first.name)];
             && (forall k :: 0 <= k < b ==> branches[k].line.Elif? && !w.holds(asked + Questions(branches, k), branches[k].line.cond))
             && (b < |branches| ==> branches[b].line.Else? || w.holds(asked + Questions(branches, b), branches[b].line.cond))
    ensures var r := ExecItems(w, s, f, ParseFile(GroupLines(first, text, branches, raw)));
            var holds := if first.If? then w.holds(s.log, first.cond) else if first.IfDef? then w.known(s.log, first.name) else !w.known(s.log, first.name);
            var added := if holds then [Defined(f, text)] else if b < |branches| then [Defined(f, branches[b].text)] else [];
            s.log <= r.log && Definitions(r.log[|s.log|..]) == added
  {
    hide ExecItems, ExecItem, ExecTail, PassTail, ParseFile, GroupLines, Adds;
    GroupIsRead(first, text, branches, raw);
    var tail := BranchTail(branches, raw);
    var item := Group(first, OneDefine(text), tail);
    ExecStep(w, s, f, item, Nil);
    ExecStep(w, ExecItem(w, s, f, item), f, Single(Other), Nil);
    ExecGroup(w, s, f, first, OneDefine(text), tail);
    AskedAdds(s, first);
    var s1 := Asked(s, first);
    SkipOneDefine(s1, text);
    if Taken(w, s, first) {
      OneDefineRuns(w, s, s1, f, text, tail);
      AddsMeans(s, PassTail(ExecItems(w, s1, f, OneDefine(text)), tail), [Defined(f, text)]);
    } else {
      var added := if b < |branches| then [Defined(f, branches[b].text)] else [];
      assert FirstHolding(w, s1.log, branches, b);
      TailChoice(w, s1, f, branches, raw, b);
      AddsAfter(s, s1, ExecTail(w, s1, f, tail), added);
      AddsMeans(s, ExecTail(w, s1, f, tail), added);
    }
  }

  lemma {:induction false} AddsMeans(s: Run, r: Run, added: History)
    requires Adds(s, r, added)
    ensures s.log <= r.log && Definitions(r.log[|s.log|..]) == added
  {
  }

  // ----- what skipping asks -----

  /** The conditions of the #elif lines, in order. */
  function Conditions(lines: seq<Line>): History {
    if lines == [] then []
    else (match lines[0] case Elif(c, _) => [Evaluated(c)] case _ => []) + Conditions(lines[1..])
  }

  lemma {:induction false} ConditionsJoin(a: seq<Line>, b: seq<Line>)
    ensures Conditions(a + b) == Conditions(a) + Conditions(b)
  {
    if a == [] {
      assert a + b == b;
    } else {
      assert (a + b)[1..] == a[1..] + b;
      ConditionsJoin(a[1..], b);
    }
  }

  lemma {:induction false} OneCondition(l: Line, rest: seq<Line>)
    ensures Conditions([l] + rest) == (match l case Elif(c, _) => [Evaluated(c)] case _ => []) + Conditions(rest)
  {
    assert ([l] + rest)[1..] == rest;
  }

  lemma {:induction false} LinesBefore(items: Items, rest: seq<Line>)
    requires Nested(items)
    ensures Lines(items, rest) == Lines(items, []) + rest
    decreases items
  {
    match items
    case Nil =>
    case Cons(Single(l), more) => LinesBefore(more, rest);
    case Cons(Group(first, body, tail), more) => GroupBefore(first, body, tail, more, rest);
  }

  lemma {:induction false} GroupBefore(first: Line, body: Items, tail: Tail, more: Items, rest: seq<Line>)
    requires Nested(body) && NestedTail(tail) && Nested(more)
    ensures var items := Cons(Group(first, body, tail), more); Lines(items, rest) == Lines(items, []) + rest
    decreases Cons(Group(first, body, tail), more), 0
  {
    hide Lines, TailLines, Nested, NestedTail;
    LinesStep(first, body, tail, more, rest);
    LinesStep(first, body, tail, more, []);
    LinesBefore(more, rest);
    TailLinesBefore(tail, Lines(more, rest));
    TailLinesBefore(tail, Lines(more, []));
    LinesBefore(body, TailLines(tail, Lines(more, rest)));
    LinesBefore(body, TailLines(tail, Lines(more, [])));
    var b, t, m := Lines(body, []), TailLines(tail, []), Lines(more, []);
    assert [first] + (b + (t + (m + rest))) == ([first] + (b + (t + m))) + rest;
  }

  lemma {:induction false} LinesStep(first: Line, body: Items, tail: Tail, more: Items, rest: seq<Line>)
    ensures Lines(Cons(Group(first, body, tail), more), rest) == [first] + Lines(body, TailLines(tail, Lines(more, rest)))
  {
  }

  lemma {:induction false} TailLinesBefore(tail: Tail, rest: seq<Line>)
    requires NestedTail(tail)
    ensures TailLines(tail, rest) == TailLines(tail, []) + rest
    decreases tail
  {
    match tail
    case EndPart(end) => assert [end.value] + rest == ([end.value] + []) + rest;
    case ElifPart(line, body, more) =>
      TailLinesBefore(more, rest);
      LinesBefore(body, TailLines(more, rest));
      LinesBefore(body, TailLines(more, []));
      assert [line] + (Lines(body, []) + (TailLines(more, []) + rest)) == ([line] + (Lines(body, []) + TailLines(more, []))) + rest;
    case ElsePart(line, body, end) =>
      LinesBefore(body, [end.value] + rest);
      LinesBefore(body, [end.value] + []);
      assert [line] + (Lines(body, []) + ([end.value] + rest)) == ([line] + (Lines(body, []) + ([end.value] + []))) + rest;
  }

  /** Skipping properly nested lines asks just for the conditions of the #elif lines among them, at every depth, in the order
      in which they stand; and of no other condition. */
  lemma {:induction false} SkippingAsks(s: Run, items: Items)
    requires Nested(items)
    ensures SkipItems(s, items) == s.(log := s.log + Conditions(Lines(items, [])))
    decreases items
  {
    match items
    case Nil => assert s.log + [] == s.log;
    case Cons(Single(l), more) =>
      OneCondition(l, Lines(more, []));
      SkippingAsks(s, more);
      assert [] + Conditions(Lines(more, [])) == Conditions(Lines(more, []));
    case Cons(Group(first, body, tail), more) => GroupAsks(s, first, body, tail, more);
  }

  lemma {:induction false} GroupAsks(s: Run, first: Line, body: Items, tail: Tail, more: Items)
    requires Opens(first) && Nested(body) && NestedTail(tail) && Nested(more)
    ensures var items := Cons(Group(first, body, tail), more); SkipItems(s, items) == s.(log := s.log + Conditions(Lines(items, [])))
    decreases Cons(Group(first, body, tail), more), 0
  {
    hide Lines, TailLines, SkipTail, Conditions, Nested, NestedTail;
    SkippingAsks(s, body);
    TailAsks(SkipItems(s, body), tail);
    SkippingAsks(SkipTail(SkipItems(s, body), tail), more);
    GroupConditions(first, body, tail, more);
    var b, t, m := Conditions(Lines(body, [])), Conditions(TailLines(tail, [])), Conditions(Lines(more, []));
    assert ((s.log + b) + t) + m == s.log + (b + (t + m));
  }

  lemma {:induction false} GroupConditions(first: Line, body: Items, tail: Tail, more: Items)
    requires Opens(first) && Nested(body) && NestedTail(tail) && Nested(more)
    ensures Conditions(Lines(Cons(Group(first, body, tail), more), []))
         == Conditions(Lines(body, [])) + (Conditions(TailLines(tail, [])) + Conditions(Lines(more, [])))
  {
    hide Conditions, Nested, NestedTail;
    var b, t, m := Lines(body, []), TailLines(tail, []), Lines(more, []);
    TailLinesBefore(tail, m);
    LinesBefore(body, TailLines(tail, m));
    OneCondition(first, b + (t + m));
    ConditionsJoin(b, t + m);
    ConditionsJoin(t, m);
    assert [] + (Conditions(b) + (Conditions(t) + Conditions(m))) == Conditions(b) + (Conditions(t) + Conditions(m));
  }

  lemma {:induction false} TailAsks(s: Run, tail: Tail)
    requires NestedTail(tail)
    ensures SkipTail(s, tail) == s.(log := s.log + Conditions(TailLines(tail, [])))
    decreases tail
  {
    hide Conditions, TailLines, Lines;
    TailConditions(tail);
    match tail
    case EndPart(end) => assert s.log + [] == s.log;
    case ElifPart(line, body, more) => ElifAsks(s, line, body, more);
    case ElsePart(line, body, end) => SkippingAsks(s, body);
  }

  lemma {:induction false} ElifAsks(s: Run, line: Line, body: Items, more: Tail)
    requires line.Elif? && Nested(body) && NestedTail(more)
    ensures SkipTail(s, ElifPart(line, body, more)) ==
            s.(log := s.log + ([Evaluated(line.cond)] + (Conditions(Lines(body, [])) + Conditions(TailLines(more, [])))))
    decreases ElifPart(line, body, more), 0
  {
    hide Conditions, TailLines, Lines, Nested, NestedTail, SkipItems;
    var s1, b, t := Peek(s, Some(line)), Conditions(Lines(body, [])), Conditions(TailLines(more, []));
    SkippingAsks(s1, body);
    TailAsks(SkipItems(s1, body), more);
    assert ((s.log + [Evaluated(line.cond)]) + b) + t == s.log + ([Evaluated(line.cond)] + (b + t));
  }

  lemma {:induction false} TailConditions(tail: Tail)
    requires NestedTail(tail)
    ensures Conditions(TailLines(tail, [])) ==
            if tail.EndPart? then []
            else if tail.ElsePart? then Conditions(Lines(tail.body, []))
            else [Evaluated(tail.line.cond)] + (Conditions(Lines(tail.body, [])) + Conditions(TailLines(tail.rest, [])))
  {
    hide Conditions, Lines;
    NoConditions();
    match tail
    case EndPart(end) => OneCondition(end.value, []);
    case ElifPart(line, body, more) =>
      var b, t := Lines(body, []), TailLines(more, []);
      LinesBefore(body, t);
      OneCondition(line, b + t);
      ConditionsJoin(b, t);
    case ElsePart(line, body, end) =>
      var b := Lines(body, []);
      assert [end.value] + [] == [end.value];
      LinesBefore(body, [end.value]);
      OneCondition(line, b + [end.value]);
      ConditionsJoin(b, [end.value]);
      OneCondition(end.value, []);
      assert [] + (Conditions(b) + ([] + [])) == Conditions(b);
  }

  lemma {:induction false} NoConditions()
    ensures Conditions([]) == []
  {
  }

  // ----- the other directives -----

  /** A single line that neither opens nor closes a group: what it adds to the log. */
  lemma {:induction false} OneLineAdds(w: World, s: Run, f: File, line: Line)
    requires line.Define? || line.Undef? || line.Other?
    ensures var added := if line.Define? then [Defined(f, line.text)] else if line.Undef? && line.name != "" then [Undefined(line.name)] else [];
            ExecItems(w, s, f, ParseFile([line])) == s.(log := s.log + added)
  {
    assert [line][1..] == [];
    assert ParseItems([line]) == (Cons(Single(line), Nil), []);
    ExecStep(w, s, f, Single(line), Nil);
    ExecStep(w, ExecItem(w, s, f, Single(line)), f, Single(Other), Nil);
    assert s.log + [] == s.log;
  }

  /** An #include adds nothing but its question if it means no file; otherwise the pair of files, and, for a file that has
      not been searched, the opening, what the lines of that file add, and its end. */
  lemma {:induction false} IncludeAdds(w: World, s: Run, f: File, text: string)
    ensures var r := ExecItems(w, s, f, ParseFile([Include(text)]));
            var found := w.target(s.log, f, text);
            if found.None? || found.value !in w.contents then r == s.(log := s.log + [Resolved(text)])
            else if found.value in s.searched then r == s.(log := s.log + [Resolved(text), Included(f, found.value)])
            else
              var g := found.value;
              var s1 := Run(s.log + [Resolved(text), Included(f, g), Opened(g)], s.searched + {g}, s.finished);
              var s2 := ExecItems(w, s1, g, ParseFile(w.contents[g]));
              r == if g in s2.finished then s2 else Run(s2.log + [Finished(g)], s2.searched, s2.finished + {g})
  {
    var line := Include(text);
    assert [line][1..] == [];
    assert ParseItems([line]) == (Cons(Single(line), Nil), []);
    assert ParseFile([line]) == Cons(Single(line), Nil);
    hide ParseFile, ParseItems;
    ExecStep(w, s, f, Single(line), Nil);
    ExecStep(w, ExecItem(w, s, f, Single(line)), f, Single(Other), Nil);
    match w.target(s.log, f, text)
    case None =>
    case Some(g) =>
      assert (s.log + [Resolved(text)]) + [Included(f, g)] == s.log + [Resolved(text), Included(f, g)];
      assert (s.log + [Resolved(text), Included(f, g)]) + [Opened(g)] == s.log + [Resolved(text), Included(f, g), Opened(g)];
  }
}
