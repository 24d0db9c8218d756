/** EmitBody of pswrap's psw.c: from the token tree of a wrap to the bytes of one call. */
module WrapBody {
  import opened ObjectLayout
  import opened StringSharing
  import opened BinaryObjects
  import opened RuntimeOffsets
  import opened ArgumentValues
  import opened ObjectMeaning

  const DPS_HEADER_SIZE := 4
  const DPS_LONG_HEADER_SIZE := 8

  /** What EmitBody leaves: the header, the objects and initialisers of the static, the objects assigned to, the writes of
      one call, and the offsets and the total that stand in the sequence then. */
  datatype Output = Output(header: nat, objects: seq<Object>, printed: seq<seq<string>>, targets: set<Token>,
                           writes: seq<Write>, arrays: seq<int>, strings: seq<int>, literals: seq<int>, nBytes: int)

  // ----- the tokens of the walk are those of the tree -----

  lemma {:induction false} InBody(list: seq<Node>, x: Node, t: Token)
    requires x in list && t in InTree(x.body)
    ensures t in InTree(list)
  {
    if x != list[0] { InBody(list[1..], x, t); }
  }

  lemma {:induction false} WalkInTree(list: seq<Node>, work: seq<Node>, x: Node)
    requires x in Order(list, work)
    ensures x.token in InTree(list) || exists y :: y in work && x.token in InTree(y.body)
    decreases Count(list) + Pending(work)
  {
    hide Count, Pending;
    OrderStep(list, work);
    OrderSmaller(list, work);
    var w := PushAll(list, work);
    if x in list {
      ListInTree(list, x);
    } else if w != [] {
      WalkInTree(w[0].body, w[1..], x);
      if x.token in InTree(w[0].body) {
        FromPushed(list, work, w[0], x.token);
      } else {
        var y :| y in w[1..] && x.token in InTree(y.body);
        FromPushed(list, work, y, x.token);
      }
    }
  }

  lemma {:induction false} OrderStep(list: seq<Node>, work: seq<Node>)
    ensures var w := PushAll(list, work); Order(list, work) == if w == [] then list else list + Order(w[0].body, w[1..])
  {
  }

  lemma {:induction false} OrderSmaller(list: seq<Node>, work: seq<Node>)
    ensures var w := PushAll(list, work); w != [] ==> Count(w[0].body) + Pending(w[1..]) < Count(list) + Pending(work)
  {
    PushShrinks(list, work);
  }

  lemma {:induction false} FromPushed(list: seq<Node>, work: seq<Node>, y: Node, t: Token)
    requires y in PushAll(list, work) && t in InTree(y.body)
    ensures t in InTree(list) || exists z :: z in work && t in InTree(z.body)
  {
    PushMembers(list, work);
    if y in list { InBody(list, y, t); }
  }

  lemma {:induction false} ListInTree(list: seq<Node>, x: Node)
    requires x in list
    ensures x.token in InTree(list)
  {
    if x != list[0] { ListInTree(list[1..], x); }
  }

  lemma {:induction false} TokensInTree(body: seq<Node>, all: seq<Node>, t: Token)
    requires all == Order(body, []) && t in Tokens(all)
    ensures t in InTree(body)
  {
    hide Order;
    var k :| 0 <= k < |all| && all[k].token == t;
    WalkInTree(body, [], all[k]);
  }

  // ----- the arguments in the sequence -----

  /** How many elements or characters the argument has: the subscript that the declaration fixes, or the one of this call. */
  function Elements(item: Item, args: Arguments): nat {
    if item.subscripted && item.constant then item.val else args(item)
  }

  /** The length that stands in the object when the sequence is sent: the one assigned, or that of the static. */
  function SentLength(r: Output, t: Token, args: Arguments): int
    requires t.namedFormal.Some?
    reads t
  {
    if t in r.targets then Elements(t.namedFormal.value, args)
    else if 0 <= t.tokenIndex < |r.objects| then r.objects[t.tokenIndex].length
    else -1
  }

  /** The object of an array argument leads to just its elements, and that of a string argument to just its characters. */
  ghost predicate LeadsToArguments(w: Wrap, r: Output, args: Arguments)
    reads w, w.namedInputArrays, w.namedInputStrings
  {
    && |r.arrays| == |w.namedInputArrays| && |r.strings| == |w.namedInputStrings|
    && (forall j :: 0 <= j < |r.arrays| ==>
          var t := w.namedInputArrays[j];
          && t.namedFormal.Some? && SentLength(r, t, args) == Elements(t.namedFormal.value, args)
          && WrittenAt(r.writes, ArrayData(t, 8 * Elements(t.namedFormal.value, args)), r.header + r.arrays[j]))
    && (forall j :: 0 <= j < |r.strings| ==>
          var t := w.namedInputStrings[j];
          && t.namedFormal.Some? && SentLength(r, t, args) == Elements(t.namedFormal.value, args)
          && WrittenAt(r.writes, Chars(t, Elements(t.namedFormal.value, args)), r.header + r.strings[j]))
  }

  /** The tokens on the lists of arguments. */
  lemma {:induction false} ArgumentTokens(all: seq<Node>, u: Use, o: Options, j: nat)
    requires Distinct(all) && ValidTokens(all, o) && (u == NamedArray || u == NamedString) && j < |Gather(all, |all|, u, o)|
    ensures var t := Gather(all, |all|, u, o)[j];
            && t in Tokens(all) && ValidToken(t) && Spelled(t, o) && UseOf(t, o) == u && t.namedFormal.Some?
            && exists k :: 0 <= k < |all| && all[k].token == t
  {
    hide Gather;
    GatherChosen(all, |all|, u, o);
    var t := Gather(all, |all|, u, o)[j];
    assert t in Gather(all, |all|, u, o);
  }

  /** Of an argument whose length varies the object is assigned to; the others have their length in the static. */
  lemma {:induction false} LengthIsSent(body: seq<Node>, inArgs: seq<Item>, t: Token, count: nat, o: Options, args: Arguments)
    requires t in InTree(body) && Checked(body, inArgs) && Spelled(t, o) && (UseOf(t, o) == NamedArray || UseOf(t, o) == NamedString)
    requires !t.wellKnownName
    ensures t.namedFormal.Some?
    ensures Varies(t) ==> t in Targets(body, inArgs, |inArgs|)
    ensures !Varies(t) ==> FieldOf(t, count, o).length == Elements(t.namedFormal.value, args)
  {
    if Varies(t) {
      var item := t.namedFormal.value;
      var k :| 0 <= k < |inArgs| && inArgs[k] == item;
      assert IsTarget(body, item, t);
    }
  }

  lemma {:induction false} AnyIsVarying(all: seq<Node>, n: nat, k: nat)
    requires k < n <= |all| && Varies(all[k].token)
    ensures AnyVaries(all, n)
  {
    if k < n - 1 { AnyIsVarying(all, n - 1, k); }
  }

  /** One argument: its length is the one that is sent. */
  lemma {:induction false} ArgumentLength(w: Wrap, body: seq<Node>, inArgs: seq<Item>, all: seq<Node>, o: Options, args: Arguments, r: Output, u: Use, j: nat)
    requires all == Order(body, []) && Distinct(all) && ValidTokens(all, o) && Checked(body, inArgs) && Assigned(all, |all|, o)
    requires (u == NamedArray || u == NamedString) && j < |Gather(all, |all|, u, o)|
    requires |r.objects| == |all| && BinaryObjects.Emitted(all, r.objects, o)
    requires AnyVaries(all, |all|) ==> r.targets == Targets(body, inArgs, |inArgs|)
    requires r.targets <= Targets(body, inArgs, |inArgs|)
    ensures var t := Gather(all, |all|, u, o)[j];
            t.namedFormal.Some? && SentLength(r, t, args) == Elements(t.namedFormal.value, args)
  {
    hide Gather, Order, Checked, Targets, FieldOf, UseOf, ValidToken;
    ArgumentTokens(all, u, o, j);
    var t := Gather(all, |all|, u, o)[j];
    var k :| 0 <= k < |all| && all[k].token == t;
    TokensInTree(body, all, t);
    NotSystem(t, u, o);
    LengthIsSent(body, inArgs, t, |all[k].body|, o, args);
    if Varies(t) { AnyIsVarying(all, |all|, k); }
  }

  lemma {:induction false} NotSystem(t: Token, u: Use, o: Options)
    requires ValidToken(t) && UseOf(t, o) == u && (u == NamedArray || u == NamedString) && TagSet(t, o)
    ensures !t.wellKnownName
  {
  }

  /** Where the offsets agree with the writes, every argument is found. */
  lemma {:induction false} ArgumentsFound(w: Wrap, body: seq<Node>, inArgs: seq<Item>, all: seq<Node>, o: Options, args: Arguments, r: Output, size: nat)
    requires all == Order(body, []) && Distinct(all) && ValidTokens(all, o) && Checked(body, inArgs) && Assigned(all, |all|, o)
    requires w.Gathered(all, |all|, o) && |r.objects| == |all| && BinaryObjects.Emitted(all, r.objects, o)
    requires AnyVaries(all, |all|) ==> r.targets == Targets(body, inArgs, |inArgs|)
    requires r.targets <= Targets(body, inArgs, |inArgs|)
    requires var c := CompiledOf(w, o, size, r.header);
             Valid(c) && Written(r.writes, c, args) && Agrees(c, args, r.arrays, r.strings, r.literals, r.nBytes)
    ensures LeadsToArguments(w, r, args)
  {
    hide Gather, Order, Checked, Targets, Assigned, BinaryObjects.Emitted, SentLength, WrittenAt, Distinct, ValidTokens, Place, AllValid, Apart, ArraysLength, StringsLength;
    forall j | 0 <= j < |w.namedInputArrays| ensures
      var t := w.namedInputArrays[j]; t.namedFormal.Some? && SentLength(r, t, args) == Elements(t.namedFormal.value, args)
    {
      ArgumentLength(w, body, inArgs, all, o, args, r, NamedArray, j);
    }
    forall j | 0 <= j < |w.namedInputStrings| ensures
      var t := w.namedInputStrings[j]; t.namedFormal.Some? && SentLength(r, t, args) == Elements(t.namedFormal.value, args)
    {
      ArgumentLength(w, body, inArgs, all, o, args, r, NamedString, j);
    }
  }

  // ----- the procedure -----

  /** The first half of EmitBody: the header, the static, and the assignments. */
  method Compile(w: Wrap, body: seq<Node>, o: Options, inArgs: seq<Item>, starred: bool, ghost all: seq<Node>)
      returns (header: nat, objects: seq<Object>, printed: seq<seq<string>>, targets: set<Token>, sz: nat, size: nat)
    requires all == Order(body, []) && Distinct(all) && ValidTokens(all, o) && TagsOk(all, 0, o) && Checked(body, inArgs)
    modifies w, Tokens(all)
    ensures header == if |body| > 0xFF || TotalSize(all, o) > 0xFFFF || starred then 8 else 4
    ensures size == DPS_BINOBJ_SIZE * |all| && sz == TotalSize(all, o) && w.Gathered(all, |all|, o)
    ensures Assigned(all, |all|, o) && Placed(all, [], |all|, Layout(body, [], 0)) && Numbered(all, |all|, o)
    ensures Formals(w.namedInputArrays) && Formals(w.namedInputStrings) && AllValid(w.literalStrings) && w.DataPlaced(size, o)
    ensures w.stringBytes == Place(w.literalStrings, map[], 0, 0).end
    ensures w.twoStatics <==> w.namedInputArrays != [] && w.literalStrings != []
    ensures w.writable <==> AnyVaries(all, |all|) || UserNames(all, |all|, o) > 0
    ensures |body| <= |objects| == |all| && BinaryObjects.Emitted(all, objects, o) && Printed(printed, Place(w.literalStrings, map[], 0, 0).stored)
    ensures targets == if w.writable then Targets(body, inArgs, |inArgs|) else {}
  {
    hide Order, Distinct, ValidTokens, TagsOk, Checked, Targets, Place, AllValid, Formals, AnyVaries, UserNames, Wrap.Gathered,
         Wrap.DataPlaced, Assigned, Placed, Numbered, Layout, BinaryObjects.Emitted, Printed, Decode, Shape, StringsSize, ArraysSize, Gather;
    ParamsAreReady(body, inArgs);
    var large := |body| > 0xFF;
    if !large { large := w.CheckSize(body, o, all); }
    if starred { large := true; }
    header := if large then DPS_LONG_HEADER_SIZE else DPS_HEADER_SIZE;
    var nObjs, split;
    sz, nObjs, size := w.BuildTypesAndAssignAddresses(body, o, all);
    LiteralsAre(w, all, o);
    objects, printed, split := ConstructStatics(body, o, nObjs, all);
    targets := {};
    if w.writable { targets := ScanParamsAndEmitValues(body, inArgs); }
  }

  /** EmitBody.  The objects and characters of the static are what the tokens stand for, if sharing of strings is right and
      no name has a mistakable length.  In a call the offsets lead to the data and the total is right when the wrap is
      writable, and otherwise just when StaticAgreesIff allows it; and then the objects of the arguments lead to just
      their elements.  `starred` says that there is a parameter of type char *. */
  method EmitBody(w: Wrap, body: seq<Node>, o: Options, inArgs: seq<Item>, starred: bool, args: Arguments, ghost all: seq<Node>) returns (r: Output)
    requires all == Order(body, []) && Distinct(all) && ValidTokens(all, o) && TagsOk(all, 0, o) && Checked(body, inArgs)
    modifies w, Tokens(all)
    ensures body == [] ==> r.writes == [] && r.objects == []
    ensures body != [] ==> r.header == HeaderSize(body, all, o, starred) && (!w.writable ==> r.nBytes == TotalSize(all, o) + r.header)
    ensures body != [] ==> w.Gathered(all, |all|, o) && AllValid(w.literalStrings) && Formals(w.namedInputArrays) && |body| <= |r.objects| == |all|
    ensures body != [] && AllRight(w.literalStrings) && NamesReadable(all, o) ==>
              UnderstoodAll(Decode(r.objects, 0, |body|), Bytes(Place(w.literalStrings, map[], 0, 0).stored), 8 * |all| + ArraysSize(w.namedInputArrays))
              == Meant(body, o)
    ensures body != [] ==>
              var c := CompiledOf(w, o, 8 * |all|, r.header);
              && Valid(c) && Written(r.writes, c, args) && Printed(r.printed, Place(c.literals, map[], 0, 0).stored)
              && (if w.writable && (c.arrays != [] || c.strings != []) then Agrees(c, args, r.arrays, r.strings, r.literals, r.nBytes)
                  else (Agrees(c, args, r.arrays, r.strings, r.literals, r.nBytes) <==>
                        !c.twoStatics || c.strings == [] || (c.stringBytes == 0 && StringsSize(c.strings, c.pad) == 0)))
              && (Agrees(c, args, r.arrays, r.strings, r.literals, r.nBytes) ==> LeadsToArguments(w, r, args))
  {
    hide Order, Distinct, ValidTokens, TagsOk, Checked, Targets, Place, AllValid, Formals, AnyVaries, UserNames, Agrees, Written, Valid, Wrap.Gathered,
         Wrap.DataPlaced, Assigned, Placed, Numbered, Layout, BinaryObjects.Emitted, Printed, Decode, AllRight, Mistakable, Bytes, Meant, UnderstoodAll, Shape, NamesReadable,
         LeadsToArguments, StringsSize, ArraysSize, Gather, TotalSize;
    if body == [] { return Output(0, [], [], {}, [], [], [], [], 0); }
    var header, objects, printed, targets, sz, size := Compile(w, body, o, inArgs, starred, all);
    var writes, arrays, strings, literals, nBytes := CallWrap(w, o, size, sz, header, args, all);
    r := Output(header, objects, printed, targets, writes, arrays, strings, literals, nBytes);
    if AllRight(w.literalStrings) && NamesReadable(all, o) {
      TableMeansTokens(w, body, all, objects, size, o);
    }
    if Agrees(CompiledOf(w, o, size, header), args, arrays, strings, literals, nBytes) {
      ArgumentsFound(w, body, inArgs, all, o, args, r, size);
    }
  }

  lemma {:induction false} ParamsAreReady(body: seq<Node>, inArgs: seq<Item>)
    requires Checked(body, inArgs)
    ensures forall t :: t in InTree(body) ==> ValidFormal(t)
  {
  }

  lemma {:induction false} LiteralsAre(w: Wrap, all: seq<Node>, o: Options)
    requires ValidTokens(all, o) && w.Gathered(all, |all|, o)
    ensures w.literalStrings == Gather(all, |all|, LiteralString, o)
  {
  }

  // ----- the short header -----

  /** The header that EmitBody takes. */
  function HeaderSize(body: seq<Node>, all: seq<Node>, o: Options, starred: bool): nat
    requires Distinct(all) && ValidTokens(all, o)
  {
    if |body| > 0xFF || TotalSize(all, o) > 0xFFFF || starred then DPS_LONG_HEADER_SIZE else DPS_HEADER_SIZE
  }

  /** The short header has one byte for the number of top objects and two for the number of bytes, in which the header
      itself is counted.  It is too short for a wrap of constant lengths exactly when the total without the header is one
      of the last four numbers of two bytes. */
  lemma {:induction false} TooShortIff(body: seq<Node>, all: seq<Node>, o: Options, starred: bool)
    requires Distinct(all) && ValidTokens(all, o)
    ensures var header, nBytes := HeaderSize(body, all, o, starred), TotalSize(all, o) + HeaderSize(body, all, o, starred);
            header == 4 && (|body| > 0xFF || nBytes > 0xFFFF) <==> |body| <= 0xFF && !starred && 0xFFFC <= TotalSize(all, o) <= 0xFFFF
  {
    hide TotalSize;
  }

  /** An array argument of 8189 integers and a string argument of 5 characters. */
  predicate TwoArguments(a: Token, s: Token) {
    && a.kind == TName && a.val == "" && a.namedFormal == ObjectLayout.Some(Item("a", DpsInt, false, true, true, 8189))
    && s.kind == TString && s.val == "" && s.namedFormal == ObjectLayout.Some(Item("s", DpsString, false, true, true, 5))
  }

  lemma {:induction false} TwoWalk(a: Token, s: Token, o: Options)
    requires TwoArguments(a, s)
    ensures var body := [Node(a, []), Node(s, [])]; Distinct(body) && ValidTokens(body, o) && Order(body, []) == body
  {
    var body := [Node(a, []), Node(s, [])];
    assert body[1..] == [Node(s, [])] && body[1..][1..] == [];
    assert PushAll(body, []) == PushAll(body[1..], []) == PushAll([], []) == [];
  }

  lemma {:induction false} GatherTwo(all: seq<Node>, u: Use, o: Options)
    requires |all| == 2 && ValidTokens(all, o)
    ensures Gather(all, 2, u, o) == (if UseOf(all[1].token, o) == u then [all[1].token] else []) + (if UseOf(all[0].token, o) == u then [all[0].token] else [])
  {
    hide UseOf;
    var none: seq<Token> := [];
    assert Gather(all, 0, u, o) == none;
    assert Gather(all, 1, u, o) == (if UseOf(all[0].token, o) == u then [all[0].token] else none) + none;
  }

  lemma {:induction false} TwoLists(a: Token, s: Token, o: Options)
    requires TwoArguments(a, s)
    ensures var body := [Node(a, []), Node(s, [])];
            && ValidTokens(body, o) && Gather(body, 2, NamedArray, o) == [a] && Gather(body, 2, NamedString, o) == [s] && Gather(body, 2, LiteralString, o) == []
  {
    hide Gather;
    var body := [Node(a, []), Node(s, [])];
    assert UseOf(a, o) == NamedArray && UseOf(s, o) == NamedString;
    GatherTwo(body, NamedArray, o);
    GatherTwo(body, NamedString, o);
    GatherTwo(body, LiteralString, o);
  }

  lemma {:induction false} OneSize(t: Token, pad: bool)
    requires ValidToken(t) && t.namedFormal.Some?
    ensures Formals([t]) && ArraysSize([t]) == ArrayBytes(t) && StringsSize([t], pad) == StringBytes(t, pad)
  {
    var none: seq<Token> := [];
    assert Formals([t]) && [t][..0] == none && ArraysSize(none) == 0 && StringsSize(none, pad) == 0;
  }

  /** For these the short header is too short. */
  lemma {:induction false} TooShortForTwo(a: Token, s: Token, o: Options)
    requires TwoArguments(a, s) && !o.pad
    ensures var body := [Node(a, []), Node(s, [])];
            && Distinct(body) && ValidTokens(body, o) && Order(body, []) == body
            && HeaderSize(body, body, o, false) == 4 && TotalSize(body, o) + 4 == 0x1_0001
  {
    hide Gather, ArraysSize, StringsSize, Order;
    TwoWalk(a, s, o);
    TwoLists(a, s, o);
    OneSize(a, false);
    OneSize(s, false);
    assert Place([], map[], 0, 0).end == 0;
  }
}
