/** ScanParamsAndEmitValues of pswrap's psw.c: the assignments that put the arguments of a call into the objects. */
module ArgumentValues {
  import opened ObjectLayout
  import opened BinaryObjects

  /** All tokens of a list, at any depth. */
  function InTree(list: seq<Node>): seq<Token> {
    if list == [] then [] else [list[0].token] + InTree(list[0].body) + InTree(list[1..])
  }

  function TopLevel(list: seq<Node>): seq<Token> {
    if list == [] then [] else [list[0].token] + TopLevel(list[1..])
  }

  /** The tokens that EmitValueAssignments gives a length or a value of the parameter. */
  predicate TakesValue(t: Token, item: Item) {
    t.namedFormal == Some(item) &&
    match t.kind
    case TString => true
    case THexString => true
    case TLitName => true
    case TName => !(item.subscripted && item.constant) || (item.starred && item.dpsType == DpsString)
    case _ => false
  }

  /** The tokens that EmitElementValueAssignments gives an element of the parameter. */
  predicate TakesElement(t: Token, item: Item) {
    t.kind == TSubscripted && t.namedFormal == Some(item)
  }

  /** The two passes of a parameter. */
  predicate Takes(t: Token, item: Item, elements: bool) {
    if elements then TakesElement(t, item) else TakesValue(t, item)
  }

  function Those(list: seq<Token>, item: Item, elements: bool): seq<Token> {
    if list == [] then [] else (if Takes(list[0], item, elements) then [list[0]] else []) + Those(list[1..], item, elements)
  }

  lemma {:induction false} ThoseJoin(a: seq<Token>, b: seq<Token>, item: Item, elements: bool)
    ensures Those(a + b, item, elements) == Those(a, item, elements) + Those(b, item, elements)
  {
    if a == [] {
      assert a + b == b;
    } else {
      assert (a + b)[1..] == a[1..] + b;
      ThoseJoin(a[1..], b, item, elements);
    }
  }

  lemma {:induction false} ThoseAre(list: seq<Token>, item: Item, elements: bool)
    ensures forall t :: t in Those(list, item, elements) <==> t in list && Takes(t, item, elements)
  {
    if list != [] {
      ThoseAre(list[1..], item, elements);
      assert list == [list[0]] + list[1..];
    }
  }

  lemma {:induction false} TreeStep(body: seq<Node>, i: nat, item: Item)
    requires i < |body|
    ensures InTree(body[i..]) == [body[i].token] + InTree(body[i].body) + InTree(body[i + 1..])
    ensures Those(InTree(body[i..]), item, false) ==
            (if TakesValue(body[i].token, item) then [body[i].token] else []) + Those(InTree(body[i].body), item, false)
            + Those(InTree(body[i + 1..]), item, false)
  {
    var t, inner := body[i].token, InTree(body[i].body);
    assert body[i..][1..] == body[i + 1..];
    ThoseJoin([t] + inner, InTree(body[i + 1..]), item, false);
    ThoseJoin([t], inner, item, false);
    assert [t][1..] == [];
  }

  lemma {:induction false} TopStep(body: seq<Node>, i: nat, item: Item)
    requires i < |body|
    ensures Those(TopLevel(body[i..]), item, true) ==
            (if TakesElement(body[i].token, item) then [body[i].token] else []) + Those(TopLevel(body[i + 1..]), item, true)
  {
    assert body[i..][1..] == body[i + 1..];
    assert TopLevel(body[i..])[1..] == TopLevel(body[i + 1..]);
  }

  /** What the parser lets a formal be: a char formal is starred or subscripted. */
  predicate ValidFormal(t: Token) {
    t.namedFormal.Some? && t.namedFormal.value.dpsType == DpsString ==> t.namedFormal.value.starred || t.namedFormal.value.subscripted
  }

  /** EmitValueAssignments: the tokens that are assigned to, and whether there are any. */
  method EmitValueAssignments(body: seq<Node>, item: Item) returns (targets: seq<Token>, gotit: bool)
    requires forall t :: t in InTree(body) ==> ValidFormal(t)
    ensures targets == Those(InTree(body), item, false) && gotit == (targets != [])
    decreases body
  {
    hide Those, InTree, TakesValue;
    targets := [];
    var i := 0;
    assert body[0..] == body && [] + Those(InTree(body), item, false) == Those(InTree(body), item, false);
    while i < |body|
      invariant 0 <= i <= |body| && targets + Those(InTree(body[i..]), item, false) == Those(InTree(body), item, false)
      invariant forall t :: t in InTree(body[i..]) ==> ValidFormal(t)
    {
      TreeStep(body, i, item);
      ghost var before := targets;
      var own := ValueTarget(body[i].token, item);
      var more, got := EmitValueAssignments(body[i].body, item);
      targets := targets + own + more;
      ghost var rest := Those(InTree(body[i + 1..]), item, false);
      Regroup(before, own, more, rest);
      i := i + 1;
    }
    NoTargets(body, item);
    assert targets + [] == targets;
    gotit := targets != [];
  }

  lemma {:induction false} Regroup(before: seq<Token>, own: seq<Token>, more: seq<Token>, rest: seq<Token>)
    ensures before + (own + more + rest) == (before + own + more) + rest
  {
  }

  /** The switch of EmitValueAssignments. */
  method ValueTarget(t: Token, item: Item) returns (own: seq<Token>)
    requires ValidFormal(t)
    ensures own == if TakesValue(t, item) then [t] else []
  {
    own := [];
    if t.namedFormal != Some(item) { return; }
    if t.kind == TString || t.kind == THexString || t.kind == TLitName {
      own := [t];
    } else if t.kind == TName {
      var length := (item.subscripted && !item.constant) || (item.starred && item.dpsType == DpsString);
      var value := item.dpsType != DpsString && !item.subscripted;
      if length || value { own := [t]; }
    }
  }

  lemma {:induction false} NoTargets(body: seq<Node>, item: Item)
    ensures Those(InTree(body[|body|..]), item, false) == [] && Those(TopLevel(body[|body|..]), item, true) == []
  {
  }

  /** EmitElementValueAssignments, which does not look into arrays and procedures. */
  method EmitElementValueAssignments(body: seq<Node>, item: Item) returns (targets: seq<Token>)
    ensures targets == Those(TopLevel(body), item, true)
  {
    hide Those, TopLevel;
    targets := [];
    var i := 0;
    assert body[0..] == body && [] + Those(TopLevel(body), item, true) == Those(TopLevel(body), item, true);
    while i < |body|
      invariant 0 <= i <= |body| && targets + Those(TopLevel(body[i..]), item, true) == Those(TopLevel(body), item, true)
    {
      var t := body[i].token;
      TopStep(body, i, item);
      ghost var before, rest := targets, Those(TopLevel(body[i + 1..]), item, true);
      if t.kind == TSubscripted && t.namedFormal == Some(item) {
        targets := targets + [t];
        assert before + ([t] + rest) == targets + rest;
      } else {
        assert before + ([] + rest) == targets + rest;
      }
      i := i + 1;
    }
    NoTargets(body, item);
    assert targets + [] == targets;
  }

  /** The code for one of the first n parameters assigns to the token. */
  predicate AnyTarget(body: seq<Node>, args: seq<Item>, n: nat, t: Token)
    requires n <= |args|
  {
    exists k :: 0 <= k < n && IsTarget(body, args[k], t)
  }

  /** All tokens that the code for the first n parameters assigns to. */
  ghost function Targets(body: seq<Node>, args: seq<Item>, n: nat): set<Token>
    requires n <= |args|
  {
    set t | t in InTree(body) && AnyTarget(body, args, n, t)
  }

  /** ScanParamsAndEmitValues */
  method ScanParamsAndEmitValues(body: seq<Node>, args: seq<Item>) returns (targets: set<Token>)
    requires forall t :: t in InTree(body) ==> ValidFormal(t)
    ensures targets == Targets(body, args, |args|)
  {
    hide Those, Targets, InTree;
    targets := {};
    var k := 0;
    NoneYet(body, args);
    while k < |args|
      invariant 0 <= k <= |args| && targets == Targets(body, args, k)
    {
      var item := args[k];
      var values, gotit := EmitValueAssignments(body, item);
      var elements := [];
      if item.subscripted { elements := EmitElementValueAssignments(body, item); }
      OneMore(body, args, k, values, elements);
      targets := targets + (set t | t in values) + (set t | t in elements);
      k := k + 1;
    }
  }

  lemma {:induction false} NoneYet(body: seq<Node>, args: seq<Item>)
    ensures Targets(body, args, 0) == {}
  {
  }

  lemma {:induction false} OneMore(body: seq<Node>, args: seq<Item>, k: nat, values: seq<Token>, elements: seq<Token>)
    requires k < |args| && values == Those(InTree(body), args[k], false)
    requires elements == if args[k].subscripted then Those(TopLevel(body), args[k], true) else []
    ensures Targets(body, args, k + 1) == Targets(body, args, k) + (set t | t in values) + (set t | t in elements)
  {
    ThoseAre(InTree(body), args[k], false);
    ThoseAre(TopLevel(body), args[k], true);
    forall t | t in TopLevel(body) ensures t in InTree(body) { TopIsInTree(body, t); }
    forall t | t in InTree(body) ensures AnyTarget(body, args, k + 1, t) <==> AnyTarget(body, args, k, t) || t in values || t in elements {
      assert IsTarget(body, args[k], t) <==> t in values || t in elements by {
        assert t in values <==> t in InTree(body) && Takes(t, args[k], false);
        assert args[k].subscripted ==> (t in elements <==> t in TopLevel(body) && Takes(t, args[k], true));
      }
    }
  }

  /** The code for one parameter assigns to the token. */
  predicate IsTarget(body: seq<Node>, item: Item, t: Token) {
    (t in InTree(body) && TakesValue(t, item)) || (item.subscripted && t in TopLevel(body) && TakesElement(t, item))
  }

  lemma {:induction false} TopIsInTree(body: seq<Node>, t: Token)
    requires t in TopLevel(body)
    ensures t in InTree(body)
  {
    if t != body[0].token { TopIsInTree(body[1..], t); }
  }

  /** Every token that refers to a parameter does so rightly, and its parameter is among the arguments. */
  ghost predicate Checked(body: seq<Node>, args: seq<Item>) {
    forall t :: t in InTree(body) ==>
      ValidToken(t) && ValidFormal(t) && (t.kind == TSubscripted ==> t.namedFormal.value.subscripted)
      && (Varies(t) ==> t.namedFormal.Some? && t.namedFormal.value in args)
  }

  /** Every object whose value depends on the call gets it exactly when elements of arrays are named only outside
      arrays and procedures. */
  lemma {:induction false} AllAssignedIff(body: seq<Node>, args: seq<Item>, targets: set<Token>)
    requires Checked(body, args)
    requires targets == Targets(body, args, |args|)
    ensures (forall t :: t in InTree(body) && Varies(t) ==> t in targets) <==>
            (forall t :: t in InTree(body) && t.kind == TSubscripted ==> t in TopLevel(body))
  {
    forall t | t in InTree(body) && Varies(t) ensures t in targets <==> (t.kind == TSubscripted ==> t in TopLevel(body)) {
      var item := t.namedFormal.value;
      var k :| 0 <= k < |args| && args[k] == item;
      assert t in targets <==> IsTarget(body, item, t);
    }
  }

  /** { [ \a[0] ] }: the element inside the array is never assigned to. */
  lemma {:induction false} ElementInArray(a: Token, t: Token, item: Item)
    requires item == Item("a", DpsInt, false, true, false, 0)
    requires a.kind == TArray && a.namedFormal == None && t.kind == TSubscripted && t.namedFormal == Some(item)
    ensures var body := [Node(a, [Node(t, [])])];
            Checked(body, [item]) && t in InTree(body) && Varies(t) && t !in Targets(body, [item], 1)
  {
    var inner := [Node(t, [])];
    var body := [Node(a, inner)];
    var none: seq<Node> := [];
    assert inner[1..] == none && body[1..] == none && InTree(none) == [] && TopLevel(none) == [];
    assert InTree(inner) == [t] + InTree(none) + InTree(none);
    assert InTree(body) == [a] + InTree(inner) + InTree(none);
    assert TopLevel(body) == [a] + TopLevel(none);
    assert InTree(inner) == [t] && InTree(body) == [a, t] && TopLevel(body) == [a];
    AllAssignedIff(body, [item], Targets(body, [item], 1));
    assert !IsTarget(body, item, t);
  }
}
