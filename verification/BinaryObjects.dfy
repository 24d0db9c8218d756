/** BuildTypesAndAssignAddresses, CheckSize and ConstructStatics of pswrap's psw.c: three walks over one token tree. */
module BinaryObjects {
  import opened ObjectLayout
  import opened StringSharing
  import opened WrapStrings
  import PswDict

  /** The -n and -p flags, and the tags of the well-known names. */
  datatype Options = Options(noUserNames: bool, pad: bool, known: map<string, nat>)

  /** What the scanner and the semantic checks let through. */
  predicate ValidToken(t: Token) {
    && (t.kind in {TString, THexString, TName} ==> ValidLiteral(t))
    && (t.kind == THexString ==> t.namedFormal.None?)
    && (t.kind in {TString, TLitName} && t.namedFormal.Some? ==> t.namedFormal.value.dpsType == DpsString)
    && (t.kind == TSubscripted ==> t.namedFormal.Some? && t.namedFormal.value.dpsType != DpsString)
    && (t.namedFormal.Some? ==> t.namedFormal.value.dpsType in {DpsBool, DpsInt, DpsReal, DpsString})
  }

  /** The list that a token is put on. */
  datatype Use = Alone | LiteralString | NamedString | NamedArray

  function UseOf(t: Token, o: Options): Use
    requires ValidToken(t)
  {
    match t.kind
    case TString => if t.namedFormal.Some? then NamedString else if Chars(t.val) != [] then LiteralString else Alone
    case THexString => if HexStringLength(t.val) != 0 then LiteralString else Alone
    case TName =>
      if t.namedFormal.None? then if o.noUserNames && t.val !in o.known then LiteralString else Alone
      else if t.namedFormal.value.dpsType == DpsString then NamedString
      else if t.namedFormal.value.subscripted then NamedArray
      else Alone
    case TLitName =>
      if t.namedFormal.Some? then NamedString else if o.noUserNames && t.val !in o.known then LiteralString else Alone
    case _ => Alone
  }

  /** A literal name that is to be stored has no backslash. */
  predicate Spelled(t: Token, o: Options) {
    t.kind == TLitName && t.namedFormal.None? && o.noUserNames ==> ValidLiteral(t)
  }

  predicate ValidTokens(all: seq<Node>, o: Options) {
    forall k :: 0 <= k < |all| ==> ValidToken(all[k].token) && Spelled(all[k].token, o)
  }

  /** The tokens of the first n that are put on a list; ConsToken puts each in front. */
  function Gather(all: seq<Node>, n: nat, u: Use, o: Options): (list: seq<Token>)
    requires n <= |all| && ValidTokens(all, o)
  {
    if n == 0 then []
    else (if UseOf(all[n - 1].token, o) == u then [all[n - 1].token] else []) + Gather(all, n - 1, u, o)
  }

  // ----- the walk -----

  /** The walk is at object n, with `list` next and `work` pending. */
  ghost predicate Walking(all: seq<Node>, list: seq<Node>, work: seq<Node>, n: nat) {
    Distinct(all) && n <= |all| && all[n..] == Order(list, work) && Fits(all, n, work)
  }

  lemma {:induction false} WalkStarts(body: seq<Node>)
    requires Distinct(Order(body, []))
    ensures Walking(Order(body, []), body, [], 0)
  {
    assert Order(body, [])[0..] == Order(body, []);
  }

  lemma {:induction false} Advance(all: seq<Node>, list: seq<Node>, work: seq<Node>, n: nat)
    requires Walking(all, list, work, n)
    ensures n + |list| <= |all| && all[n..n + |list|] == list
    ensures var w, n1 := PushAll(list, work), n + |list|;
            if w == [] then n1 == |all|
            else Walking(all, w[0].body, w[1..], n1) && Count(w[0].body) + Pending(w[1..]) < Count(list) + Pending(work)
  {
    OrderStarts(all, list, work, n);
    PushShrinks(list, work);
    PushFits(all, n, list, work);
    if PushAll(list, work) != [] { FitsRest(all, n + |list|, PushAll(list, work)); }
  }

  lemma {:induction false} PushOne(list: seq<Node>, i: nat, work: seq<Node>)
    requires i < |list|
    ensures PushAll(list[i..], work) == PushAll(list[i + 1..], if list[i].token.Composite() then [list[i]] + work else work)
  {
    assert list[i..][1..] == list[i + 1..];
  }

  // ----- ConstructStatics -----

  function ChosenLength(t: Token): int
    requires ValidToken(t) && t.namedFormal.Some?
  {
    if t.namedFormal.value.subscripted && t.namedFormal.value.constant then t.namedFormal.value.val else 0
  }

  /** EmitFieldConstructor: the object of a token whose body has `count` tokens. */
  function FieldOf(t: Token, count: nat, o: Options): (f: Object)
    requires ValidToken(t) && Spelled(t, o)
    reads t
  {
    match t.kind
    case TBoolean => Object(false, DpsBool, 0, Text(t.val), false)
    case TInt => Object(false, DpsInt, 0, Text(t.val), false)
    case TFloat => Object(false, DpsReal, 0, Text(t.val), false)
    case TArray => Object(false, DpsArray, count, Offset(t.body), false)
    case TProc => Object(true, DpsArray, count, Offset(t.body), false)
    case TString =>
      if t.namedFormal.None? then Object(false, DpsString, |Chars(t.val)|, Offset(t.body), false)
      else Object(false, DpsString, ChosenLength(t), Offset(t.body), true)
    case THexString => Object(false, DpsString, HexStringLength(t.val), Offset(t.body), false)
    case TLitName =>
      if t.wellKnownName then Object(false, DpsName, DPSSYSNAME, Offset(t.body), false)
      else if t.namedFormal.Some? then Object(false, DpsName, 0, Offset(t.body), true)
      else if o.noUserNames then Object(false, DpsName, |Chars(t.val)|, Offset(t.body), false)
      else Object(false, DpsName, 0, Offset(0), false)
    case TName =>
      if t.wellKnownName then Object(true, DpsName, DPSSYSNAME, Offset(t.body), false)
      else if t.namedFormal.None? then
        if o.noUserNames then Object(true, DpsName, |Chars(t.val)|, Offset(t.body), false)
        else Object(true, DpsName, 0, Offset(0), false)
      else if t.namedFormal.value.dpsType == DpsString then Object(true, DpsName, ChosenLength(t), Offset(t.body), true)
      else if t.namedFormal.value.subscripted then Object(false, DpsArray, ChosenLength(t), Offset(t.body), true)
      else Object(false, t.namedFormal.value.dpsType, 0, Offset(0), true)
    case TSubscripted => Object(false, t.namedFormal.value.dpsType, 0, Offset(0), true)
  }

  /** The first half of ConstructStatics: the objects in the order of the walk, and the literals to be printed after them. */
  method EmitObjects(body: seq<Node>, o: Options, ghost all: seq<Node>) returns (objects: seq<Object>, strings: seq<Token>, isNamedInputArrays: bool)
    requires all == Order(body, []) && Distinct(all) && ValidTokens(all, o)
    requires forall k :: 0 <= k < |all| ==> TagSet(all[k].token, o)
    ensures |objects| == |all| && forall k :: 0 <= k < |all| ==> objects[k] == FieldOf(all[k].token, |all[k].body|, o)
    ensures strings == Gather(all, |all|, LiteralString, o)
    ensures isNamedInputArrays <==> Gather(all, |all|, NamedArray, o) != []
  {
    hide Walking, Order, PushAll, FieldOf, UseOf, Distinct, Count, Pending, Gather;
    objects, strings, isNamedInputArrays := [], [], false;
    var list, work := body, [];
    WalkStarts(body);
    NoneEmitted(all, o);
    while true
      invariant Walking(all, list, work, |objects|) && EmittedSoFar(all, objects, strings, isNamedInputArrays, o)
      decreases Count(list) + Pending(work)
    {
      Advance(all, list, work, |objects|);
      objects, strings, isNamedInputArrays, work := EmitList(list, objects, strings, isNamedInputArrays, work, o, all);
      if work == [] { break; }
      list, work := work[0].body, work[1..];
    }
  }

  ghost predicate EmittedSoFar(all: seq<Node>, objects: seq<Object>, strings: seq<Token>, arrays: bool, o: Options)
    requires ValidTokens(all, o)
    reads set k | 0 <= k < |all| :: all[k].token
  {
    && Emitted(all, objects, o) && strings == Gather(all, |objects|, LiteralString, o)
    && (arrays <==> Gather(all, |objects|, NamedArray, o) != [])
  }

  lemma {:induction false} NoneEmitted(all: seq<Node>, o: Options)
    requires ValidTokens(all, o)
    ensures EmittedSoFar(all, [], [], false, o)
  {
  }

  /** The inner loop of ConstructStatics. */
  method EmitList(list: seq<Node>, objects0: seq<Object>, strings0: seq<Token>, arrays0: bool, work0: seq<Node>, o: Options, ghost all: seq<Node>)
      returns (objects: seq<Object>, strings: seq<Token>, arrays: bool, work: seq<Node>)
    requires ValidTokens(all, o) && forall k :: 0 <= k < |all| ==> TagSet(all[k].token, o)
    requires EmittedSoFar(all, objects0, strings0, arrays0, o)
    requires |objects0| + |list| <= |all| && all[|objects0|..|objects0| + |list|] == list
    ensures |objects| == |objects0| + |list| && work == PushAll(list, work0)
    ensures EmittedSoFar(all, objects, strings, arrays, o)
  {
    hide PushAll, FieldOf, UseOf, Gather, Emitted;
    objects, strings, arrays, work := objects0, strings0, arrays0, work0;
    var i := 0;
    assert list[0..] == list;
    while i < |list|
      invariant 0 <= i <= |list| && |objects| == |objects0| + i
      invariant PushAll(list[i..], work) == PushAll(list, work0) && EmittedSoFar(all, objects, strings, arrays, o)
    {
      var t := list[i].token;
      assert list[i] == all[|objects0|..|objects0| + |list|][i] == all[|objects|];
      PushOne(list, i, work);
      EmitStep(all, objects, o);
      GatherNext(all, |objects|, o);
      var use := ChooseStrings(t, o);
      objects := objects + [FieldOf(t, |list[i].body|, o)];
      if use == LiteralString { strings := [t] + strings; }
      if use == NamedArray { arrays := true; }
      if t.Composite() { work := [list[i]] + work; }
      i := i + 1;
    }
    PushNone(list, work);
  }

  /** The switch of ConstructStatics. */
  method ChooseStrings(t: Token, o: Options) returns (use: Use)
    requires ValidToken(t) && TagSet(t, o)
    ensures use == UseOf(t, o) || (use == Alone && UseOf(t, o) == NamedString)
  {
    use := Alone;
    match t.kind {
      case TString =>
        if t.namedFormal.None? {
          var ln := StringLength(t.val);
          if ln.value != 0 { use := LiteralString; }
        }
      case THexString =>
        if t.namedFormal.None? && HexStringLength(t.val) != 0 { use := LiteralString; }
      case TName =>
        if t.namedFormal.None? {
          if o.noUserNames && !t.wellKnownName { use := LiteralString; }
        } else if t.namedFormal.value.subscripted && t.namedFormal.value.dpsType != DpsString {
          use := NamedArray;
        }
      case TLitName =>
        if o.noUserNames && t.namedFormal.None? && !t.wellKnownName { use := LiteralString; }
      case _ =>
    }
  }

  /** Only well-known names have been marked so far. */
  predicate TagOk(t: Token, o: Options)
    reads t`wellKnownName
  {
    t.wellKnownName ==> t.kind in {TName, TLitName} && t.namedFormal.None? && t.val in o.known
  }

  ghost predicate Emitted(all: seq<Node>, objects: seq<Object>, o: Options)
    requires ValidTokens(all, o)
    reads set k | 0 <= k < |all| :: all[k].token
  {
    |objects| <= |all| && forall k :: 0 <= k < |objects| ==> objects[k] == FieldOf(all[k].token, |all[k].body|, o)
  }

  lemma {:induction false} EmitStep(all: seq<Node>, objects: seq<Object>, o: Options)
    requires ValidTokens(all, o) && Emitted(all, objects, o) && |objects| < |all|
    ensures Emitted(all, objects + [FieldOf(all[|objects|].token, |all[|objects|].body|, o)], o)
  {
  }

  lemma {:induction false} PushNone(list: seq<Node>, work: seq<Node>)
    ensures PushAll(list[|list|..], work) == work
  {
  }

  /** SetNameTag has marked the well-known names. */
  predicate TagSet(t: Token, o: Options)
    reads t`wellKnownName
  {
    if t.kind in {TName, TLitName} && t.namedFormal.None? then t.wellKnownName == (t.val in o.known)
    else !t.wellKnownName
  }

  // ----- BuildTypesAndAssignAddresses and CheckSize -----

  ghost function Tokens(all: seq<Node>): set<Token> {
    set k | 0 <= k < |all| :: all[k].token
  }

  /** The encoding of the token is not known before the wrap is called. */
  predicate Varies(t: Token) {
    match t.kind
    case TString => t.namedFormal.Some? && !(t.namedFormal.value.subscripted && t.namedFormal.value.constant)
    case TName =>
      t.namedFormal.Some? &&
      if t.namedFormal.value.dpsType == DpsString || t.namedFormal.value.subscripted
      then !(t.namedFormal.value.subscripted && t.namedFormal.value.constant) else true
    case TLitName => t.namedFormal.Some?
    case TSubscripted => true
    case _ => false
  }

  /** A name that the server has to be asked for. */
  predicate UserName(t: Token, o: Options) {
    t.kind in {TName, TLitName} && t.namedFormal.None? && t.val !in o.known && !o.noUserNames
  }

  /** A well-known name, which is sent as its number. */
  predicate SystemName(t: Token, o: Options) {
    t.kind in {TName, TLitName} && t.namedFormal.None? && t.val in o.known
  }

  /** The well-known names among the first n tokens have their numbers. */
  ghost predicate Numbered(all: seq<Node>, n: nat, o: Options)
    requires n <= |all|
    reads Tokens(all)
  {
    forall k :: 0 <= k < n && SystemName(all[k].token, o) ==> all[k].token.body == o.known[all[k].token.val]
  }

  function AnyVaries(all: seq<Node>, n: nat): bool
    requires n <= |all|
  {
    n > 0 && (Varies(all[n - 1].token) || AnyVaries(all, n - 1))
  }

  function UserNames(all: seq<Node>, n: nat, o: Options): nat
    requires n <= |all|
  {
    if n == 0 then 0 else UserNames(all, n - 1, o) + if UserName(all[n - 1].token, o) then 1 else 0
  }

  /** The globals of psw.c that a wrap is compiled with. */
  class Wrap {
    var namedInputArrays: seq<Token>
    var namedInputStrings: seq<Token>
    var literalStrings: seq<Token>
    var nNames: nat
    var writable: bool
    var twoStatics: bool
    var stringBytes: nat

    constructor ()
    {
      namedInputArrays, namedInputStrings, literalStrings, nNames, writable, twoStatics, stringBytes := [], [], [], 0, false, false, 0;
    }

    /** The lists hold what was met among the first n tokens. */
    ghost predicate Gathered(all: seq<Node>, n: nat, o: Options)
      requires n <= |all| && ValidTokens(all, o)
      reads this
    {
      && namedInputArrays == Gather(all, n, NamedArray, o)
      && namedInputStrings == Gather(all, n, NamedString, o)
      && literalStrings == Gather(all, n, LiteralString, o)
    }

    method SetNameTag(t: Token, o: Options)
      requires t.kind in {TName, TLitName} && t.namedFormal.None? && TagOk(t, o)
      modifies t`wellKnownName, t`body, `nNames
      ensures t.wellKnownName <==> t.val in o.known
      ensures t.val in o.known ==> t.body == o.known[t.val]
      ensures nNames == old(nNames) + if UserName(t, o) then 1 else 0
    {
      if t.val in o.known {
        t.wellKnownName := true;
        t.body := o.known[t.val];
      } else if o.noUserNames {
        t.wellKnownName := false;
      } else {
        nNames := nNames + 1;
      }
    }

    /** What BuildTypesAndAssignAddresses does for one token. */
    method AssignToken(t: Token, nextAdr: int, objN: nat, o: Options)
      requires ValidToken(t) && TagOk(t, o)
      modifies t, `namedInputArrays, `namedInputStrings, `literalStrings, `nNames, `writable
      ensures t.adr == nextAdr && t.tokenIndex == objN && TagSet(t, o)
      ensures t.kind !in {TName, TLitName} ==> t.body == old(t.body)
      ensures SystemName(t, o) ==> t.body == o.known[t.val]
      ensures namedInputArrays == (if UseOf(t, o) == NamedArray then [t] else []) + old(namedInputArrays)
      ensures namedInputStrings == (if UseOf(t, o) == NamedString then [t] else []) + old(namedInputStrings)
      ensures literalStrings == (if UseOf(t, o) == LiteralString then [t] else []) + old(literalStrings)
      ensures nNames == old(nNames) + (if UserName(t, o) then 1 else 0) && (writable <==> old(writable) || Varies(t))
    {
      t.adr := nextAdr;
      t.tokenIndex := objN;
      match t.kind {
        case TString =>
          if t.namedFormal.None? {
            var ln := StringLength(t.val);
            if ln.value != 0 { literalStrings := [t] + literalStrings; }
          } else {
            namedInputStrings := [t] + namedInputStrings;
            if !(t.namedFormal.value.subscripted && t.namedFormal.value.constant) { writable := true; }
          }
        case THexString =>
          if HexStringLength(t.val) != 0 { literalStrings := [t] + literalStrings; }
        case TName =>
          if t.namedFormal.None? {
            SetNameTag(t, o);
            if o.noUserNames && !t.wellKnownName { literalStrings := [t] + literalStrings; }
          } else if t.namedFormal.value.dpsType == DpsString {
            namedInputStrings := [t] + namedInputStrings;
            if !(t.namedFormal.value.subscripted && t.namedFormal.value.constant) { writable := true; }
          } else if t.namedFormal.value.subscripted {
            namedInputArrays := [t] + namedInputArrays;
            if !t.namedFormal.value.constant { writable := true; }
          } else {
            writable := true;
          }
        case TLitName =>
          if t.namedFormal.None? {
            SetNameTag(t, o);
            if o.noUserNames && !t.wellKnownName { literalStrings := [t] + literalStrings; }
          } else {
            namedInputStrings := [t] + namedInputStrings;
            writable := true;
          }
        case TSubscripted => writable := true;
        case _ =>
      }
    }

    /** Everything that has been done when the walk is at object n. */
    ghost predicate Done(all: seq<Node>, n: nat, work: seq<Node>, m: map<Token, Extent>, o: Options)
      requires n <= |all| && ValidTokens(all, o)
      reads this, Tokens(all)
    {
      && Gathered(all, n, o) && Assigned(all, n, o) && TagsOk(all, n, o) && Placed(all, work, n, m) && Numbered(all, n, o)
      && nNames == UserNames(all, n, o) && (writable <==> AnyVaries(all, n))
    }

    /** One round of the inner loop. */
    method AssignNext(x: Node, n: nat, work: seq<Node>, o: Options, ghost all: seq<Node>, ghost m: map<Token, Extent>) returns (work': seq<Node>)
      requires Distinct(all) && ValidTokens(all, o) && n < |all| && all[n] == x && Done(all, n, work, m, o)
      modifies this, Tokens(all)
      ensures Done(all, n + 1, work', m, o)
      ensures work' == if x.token.Composite() then [x] + work else work
    {
      hide UseOf, Varies, UserName, ValidToken, TagSet, TagOk, SystemName, Spelled, Distinct, Gather, UserNames, AnyVaries;
      work' := if x.token.Composite() then [x] + work else work;
      assert TagsOk(all, n, o) && ValidToken(x.token);
      OthersDiffer(all, n);
      AssignToken(x.token, DPS_BINOBJ_SIZE * n, n, o);
      GatherNext(all, n, o);
    }

    /** The inner loop. */
    method AssignList(list: seq<Node>, objN0: nat, work0: seq<Node>, o: Options, ghost all: seq<Node>, ghost m: map<Token, Extent>)
        returns (objN: nat, work: seq<Node>)
      requires Distinct(all) && ValidTokens(all, o) && objN0 + |list| <= |all| && all[objN0..objN0 + |list|] == list
      requires Done(all, objN0, work0, m, o)
      modifies this, Tokens(all)
      ensures objN == objN0 + |list| && work == PushAll(list, work0) && Done(all, objN, work, m, o)
    {
      hide Done, Distinct, ValidTokens, PushAll;
      objN, work := objN0, work0;
      var i := 0;
      assert list[0..] == list;
      while i < |list|
        invariant 0 <= i <= |list| && objN == objN0 + i
        invariant PushAll(list[i..], work) == PushAll(list, work0) && Done(all, objN, work, m, o)
      {
        assert list[i] == all[objN0..objN0 + |list|][i] == all[objN];
        PushOne(list, i, work);
        work := AssignNext(list[i], objN, work, o, all, m);
        objN := objN + 1;
        i := i + 1;
      }
      PushNone(list, work);
    }

    /** The body of a pending token is to be laid next. */
    method PlaceBody(x: Node, nextAdr: int, n: nat, work: seq<Node>, o: Options, ghost all: seq<Node>, ghost m: map<Token, Extent>)
      requires Distinct(all) && ValidTokens(all, o) && n <= |all| && Done(all, n, work, m, o) && work != [] && work[0] == x
      requires x in all && x.token.Composite() && x.token in m && nextAdr == DPS_BINOBJ_SIZE * m[x.token].start
      modifies x.token`body
      ensures Done(all, n, work[1..], m, o)
    {
      hide UseOf, Varies, UserName, ValidToken, Gather, UserNames, AnyVaries, TagOk;
      ghost var k :| 0 <= k < |all| && all[k] == x;
      OthersDiffer(all, k);
      hide Distinct;
      assert work == [x] + work[1..];
      x.token.body := nextAdr;
    }

    /** The walk of BuildTypesAndAssignAddresses: addresses, indices and lists; and the place of every body. */
    method AssignAddresses(body: seq<Node>, o: Options, ghost all: seq<Node>) returns (objN: nat)
      requires all == Order(body, []) && Distinct(all) && ValidTokens(all, o) && TagsOk(all, 0, o)
      modifies this, Tokens(all)
      ensures objN == |all| && Done(all, |all|, [], Layout(body, [], 0), o)
    {
      hide Walking, Order, PushAll, Distinct, Count, Pending, Layout, ValidTokens, Done;
      ghost var m := Layout(body, [], 0);
      namedInputArrays, namedInputStrings, literalStrings, nNames, writable := [], [], [], 0, false;
      objN := 0;
      var list, work := body, [];
      WalkStarts(body);
      NothingDone(all, m, o);
      while true
        invariant Walking(all, list, work, objN) && objN <= |all| && Done(all, objN, work, m, o) && Within(Layout(list, work, objN), m)
        decreases Count(list) + Pending(work)
      {
        Advance(all, list, work, objN);
        ghost var n0, work0 := objN, work;
        objN, work := AssignList(list, objN, work, o, all, m);
        if work == [] { break; }
        LayoutPop(all, list, work0, n0, m);
        PlaceBody(work[0], DPS_BINOBJ_SIZE * objN, objN, work, o, all, m);
        list, work := work[0].body, work[1..];
      }
    }

    /** Where the data of the lists are, when the objects take `size` bytes: array arguments, then literals, then
        string arguments. */
    ghost predicate DataPlaced(size: nat, o: Options)
      requires Formals(namedInputArrays) && Formals(namedInputStrings) && AllValid(literalStrings)
      reads this, namedInputArrays, namedInputStrings, literalStrings
    {
      var store := Place(literalStrings, map[], 0, 0);
      var base := size + ArraysSize(namedInputArrays);
      && (forall i :: 0 <= i < |namedInputArrays| ==> namedInputArrays[i].body == size + ArraysSize(namedInputArrays[..i]))
      && (forall i :: 0 <= i < |literalStrings| ==> literalStrings[i].body == base + store.fields[i].offset)
      && (forall i :: 0 <= i < |namedInputStrings| ==>
            namedInputStrings[i].body == base + store.end + StringsSize(namedInputStrings[..i], o.pad))
    }

    /** The three loops of BuildTypesAndAssignAddresses that follow the walk. */
    method PlaceData(size: nat, o: Options) returns (nextAdr: nat, fields: nat)
      requires Formals(namedInputArrays) && Formals(namedInputStrings) && AllValid(literalStrings)
      requires Apart(namedInputArrays, namedInputStrings, literalStrings)
      modifies namedInputArrays`body, namedInputStrings`body, literalStrings`body, `stringBytes
      ensures DataPlaced(size, o)
      ensures var store := Place(literalStrings, map[], 0, 0);
              && fields == |store.stored| && stringBytes == store.end
              && nextAdr == size + ArraysSize(namedInputArrays) + store.end + StringsSize(namedInputStrings, o.pad)
    {
      hide ArraysSize, StringsSize, Place, Formals, AllValid;
      assert forall i :: 0 <= i < |namedInputArrays| ==> namedInputArrays[i] !in namedInputStrings && namedInputArrays[i] !in literalStrings;
      assert forall i :: 0 <= i < |literalStrings| ==> literalStrings[i] !in namedInputStrings;
      nextAdr := PlaceArrays(namedInputArrays, size);
      ghost var done;
      nextAdr, stringBytes, fields, done := PlaceLiterals(literalStrings, nextAdr);
      nextAdr := PlaceNamedStrings(namedInputStrings, nextAdr, o.pad);
    }

    /** BuildTypesAndAssignAddresses: the address of every object and of all data, the total size, and the number of
        fields that were declared. */
    method BuildTypesAndAssignAddresses(body: seq<Node>, o: Options, ghost all: seq<Node>) returns (sz: nat, nObjs: nat, size: nat)
      requires all == Order(body, []) && Distinct(all) && ValidTokens(all, o) && TagsOk(all, 0, o)
      modifies this, Tokens(all)
      ensures size == DPS_BINOBJ_SIZE * |all| && sz == TotalSize(all, o) && Gathered(all, |all|, o)
      ensures Assigned(all, |all|, o) && Placed(all, [], |all|, Layout(body, [], 0)) && Numbered(all, |all|, o)
      ensures Formals(namedInputArrays) && Formals(namedInputStrings) && AllValid(literalStrings) && DataPlaced(size, o)
      ensures nObjs == |all| + |Place(literalStrings, map[], 0, 0).stored| && stringBytes == Place(literalStrings, map[], 0, 0).end
      ensures twoStatics <==> namedInputArrays != [] && literalStrings != []
      ensures writable <==> AnyVaries(all, |all|) || UserNames(all, |all|, o) > 0
    {
      hide Order, Distinct, Layout, TagsOk, DataPlaced, Apart, Gather, Formals, ArraysSize, StringsSize, Place, AllValid, UserNames, AnyVaries, TagSet;
      var objN := AssignAddresses(body, o, all);
      size := DPS_BINOBJ_SIZE * objN;
      if nNames > 0 { writable := true; }
      twoStatics := namedInputArrays != [] && literalStrings != [];
      ListsApart(all, o);
      var fields;
      sz, fields := PlaceLists(size, o, all, Layout(body, [], 0));
      nObjs := objN + fields;
    }

    /** The data of the lists are placed; the addresses of bodies stay. */
    method PlaceLists(size: nat, o: Options, ghost all: seq<Node>, ghost m: map<Token, Extent>) returns (sz: nat, fields: nat)
      requires Distinct(all) && ValidTokens(all, o) && size == DPS_BINOBJ_SIZE * |all| && Gathered(all, |all|, o)
      requires Assigned(all, |all|, o) && Placed(all, [], |all|, m) && Numbered(all, |all|, o)
      modifies namedInputArrays`body, namedInputStrings`body, literalStrings`body, `stringBytes
      ensures sz == TotalSize(all, o) && Assigned(all, |all|, o) && Placed(all, [], |all|, m) && Numbered(all, |all|, o)
      ensures Formals(namedInputArrays) && Formals(namedInputStrings) && AllValid(literalStrings) && DataPlaced(size, o)
      ensures fields == |Place(literalStrings, map[], 0, 0).stored| && stringBytes == Place(literalStrings, map[], 0, 0).end
    {
      hide Distinct, DataPlaced, Apart, Gather, Formals, ArraysSize, StringsSize, Place, AllValid, TagSet;
      ListsApart(all, o);
      sz, fields := PlaceData(size, o);
    }

    // ----- CheckSize -----

    /** What CheckSize does for one token. */
    method CollectToken(t: Token, o: Options)
      requires ValidToken(t) && TagOk(t, o)
      modifies t`wellKnownName, t`body, `namedInputArrays, `namedInputStrings, `literalStrings, `nNames, `writable
      ensures TagOk(t, o) && nNames == old(nNames)
      ensures namedInputArrays == (if UseOf(t, o) == NamedArray then [t] else []) + old(namedInputArrays)
      ensures namedInputStrings == (if UseOf(t, o) == NamedString then [t] else []) + old(namedInputStrings)
      ensures literalStrings == (if UseOf(t, o) == LiteralString then [t] else []) + old(literalStrings)
    {
      match t.kind {
        case TString =>
          if t.namedFormal.None? {
            var ln := StringLength(t.val);
            if ln.value != 0 { literalStrings := [t] + literalStrings; }
          } else {
            namedInputStrings := [t] + namedInputStrings;
          }
        case THexString =>
          if HexStringLength(t.val) != 0 { literalStrings := [t] + literalStrings; }
        case TName =>
          if t.namedFormal.Some? {
            if t.namedFormal.value.dpsType == DpsString {
              namedInputStrings := [t] + namedInputStrings;
            } else if t.namedFormal.value.subscripted {
              namedInputArrays := [t] + namedInputArrays;
            }
          } else if o.noUserNames {
            SetNameTag(t, o);
            if !t.wellKnownName { literalStrings := [t] + literalStrings; }
          }
        case TLitName =>
          if t.namedFormal.Some? {
            namedInputStrings := [t] + namedInputStrings;
            writable := true;
          } else if o.noUserNames {
            SetNameTag(t, o);
            if !t.wellKnownName { literalStrings := [t] + literalStrings; }
          }
        case _ =>
      }
    }

    ghost predicate Collected(all: seq<Node>, n: nat, o: Options)
      requires n <= |all| && ValidTokens(all, o)
      reads this, Tokens(all)
    {
      Gathered(all, n, o) && TagsOk(all, 0, o)
    }

    method CollectList(list: seq<Node>, n0: nat, work0: seq<Node>, o: Options, ghost all: seq<Node>) returns (n: nat, work: seq<Node>)
      requires Distinct(all) && ValidTokens(all, o) && n0 + |list| <= |all| && all[n0..n0 + |list|] == list && Collected(all, n0, o)
      modifies this, Tokens(all)
      ensures n == n0 + |list| && work == PushAll(list, work0) && Collected(all, n, o)
    {
      hide Collected, Distinct, ValidTokens, PushAll;
      n, work := n0, work0;
      var i := 0;
      assert list[0..] == list;
      while i < |list|
        invariant 0 <= i <= |list| && n == n0 + i
        invariant PushAll(list[i..], work) == PushAll(list, work0) && Collected(all, n, o)
      {
        assert list[i] == all[n0..n0 + |list|][i] == all[n];
        PushOne(list, i, work);
        CollectNext(list[i], n, o, all);
        if list[i].token.Composite() { work := [list[i]] + work; }
        n := n + 1;
        i := i + 1;
      }
      PushNone(list, work);
    }

    method CollectNext(x: Node, n: nat, o: Options, ghost all: seq<Node>)
      requires Distinct(all) && ValidTokens(all, o) && n < |all| && all[n] == x && Collected(all, n, o)
      modifies this, x.token
      ensures Collected(all, n + 1, o)
    {
      hide UseOf, ValidToken, Gather, TagOk;
      assert TagsOk(all, 0, o) && ValidToken(x.token) && TagOk(all[n].token, o);
      OthersDiffer(all, n);
      CollectToken(x.token, o);
      GatherNext(all, n, o);
    }

    /** CheckSize: whether the sequence needs the long header. */
    method CheckSize(body: seq<Node>, o: Options, ghost all: seq<Node>) returns (large: bool)
      requires all == Order(body, []) && Distinct(all) && ValidTokens(all, o) && TagsOk(all, 0, o)
      modifies this, Tokens(all)
      ensures large <==> TotalSize(all, o) > 0xFFFF
      ensures TagsOk(all, 0, o)
    {
      var n := CollectAll(body, o, all);
      ListsApart(all, o);
      hide Order, Distinct, Place, Gather;
      var arrays := SumArrays(namedInputArrays);
      var literals := CheckLiterals(literalStrings);
      var strings := SumStrings(namedInputStrings, o.pad);
      large := DPS_BINOBJ_SIZE * n + arrays + literals + strings > 0xFFFF;
    }

    /** The walk of CheckSize. */
    method CollectAll(body: seq<Node>, o: Options, ghost all: seq<Node>) returns (n: nat)
      requires all == Order(body, []) && Distinct(all) && ValidTokens(all, o) && TagsOk(all, 0, o)
      modifies this, Tokens(all)
      ensures n == |all| && Collected(all, |all|, o)
    {
      hide Walking, Order, PushAll, Distinct, Count, Pending, ValidTokens, TagOk;
      namedInputArrays, namedInputStrings, literalStrings := [], [], [];
      n := 0;
      var list, work := body, [];
      WalkStarts(body);
      while true
        invariant Walking(all, list, work, n) && n <= |all| && Collected(all, n, o)
        decreases Count(list) + Pending(work)
      {
        Advance(all, list, work, n);
        WorkIsOfWalk(all, list, work, n);
        n, work := CollectList(list, n, work, o, all);
        if work == [] { break; }
        work[0].token.body := DPS_BINOBJ_SIZE * n;
        list, work := work[0].body, work[1..];
      }
    }

    lemma {:induction false} NothingDone(all: seq<Node>, m: map<Token, Extent>, o: Options)
      requires ValidTokens(all, o) && TagsOk(all, 0, o) && !writable && nNames == 0
      requires namedInputArrays == namedInputStrings == literalStrings == []
      ensures Done(all, 0, [], m, o)
    {
    }
  }

  /** All tokens of the three lists differ. */
  ghost predicate Apart(a: seq<Token>, b: seq<Token>, c: seq<Token>) {
    && (forall i, j :: 0 <= i < j < |a| ==> a[i] != a[j])
    && (forall i, j :: 0 <= i < j < |b| ==> b[i] != b[j])
    && (forall i, j :: 0 <= i < j < |c| ==> c[i] != c[j])
    && (forall t :: t in a ==> t !in b && t !in c) && forall t :: t in b ==> t !in c
  }

  /** The lists of a wrap: different tokens, none of them with a body. */
  lemma {:induction false} ListsApart(all: seq<Node>, o: Options)
    requires Distinct(all) && ValidTokens(all, o)
    ensures var a, b, c := Gather(all, |all|, NamedArray, o), Gather(all, |all|, NamedString, o), Gather(all, |all|, LiteralString, o);
            && Apart(a, b, c) && Formals(a) && Formals(b) && AllValid(c)
            && (forall t :: t in a || t in b || t in c ==> t in Tokens(all) && !t.Composite() && !SystemName(t, o))
  {
    var n := |all|;
    GatherChosen(all, n, NamedArray, o);
    GatherChosen(all, n, NamedString, o);
    GatherChosen(all, n, LiteralString, o);
    ChosenFormals(all, Gather(all, n, NamedArray, o), NamedArray, o);
    ChosenFormals(all, Gather(all, n, NamedString, o), NamedString, o);
    ChosenFormals(all, Gather(all, n, LiteralString, o), LiteralString, o);
    hide Gather, UseOf, ValidToken, Formals, AllValid;
  }

  lemma {:induction false} OthersDiffer(all: seq<Node>, n: nat)
    requires Distinct(all) && n < |all|
    ensures forall k :: 0 <= k < |all| && k != n ==> all[k].token != all[n].token
  {
  }

  lemma {:induction false} GatherNext(all: seq<Node>, n: nat, o: Options)
    requires n < |all| && ValidTokens(all, o)
    ensures forall u :: Gather(all, n + 1, u, o) == (if UseOf(all[n].token, o) == u then [all[n].token] else []) + Gather(all, n, u, o)
    ensures UserNames(all, n + 1, o) == UserNames(all, n, o) + if UserName(all[n].token, o) then 1 else 0
    ensures AnyVaries(all, n + 1) <==> Varies(all[n].token) || AnyVaries(all, n)
  {
  }

  /** The first n tokens have their address, index and tag. */
  ghost predicate Assigned(all: seq<Node>, n: nat, o: Options)
    requires n <= |all|
    reads Tokens(all)
  {
    forall k :: 0 <= k < n ==> all[k].token.adr == DPS_BINOBJ_SIZE * k && all[k].token.tokenIndex == k && TagSet(all[k].token, o)
  }

  ghost predicate TagsOk(all: seq<Node>, n: nat, o: Options)
    requires n <= |all|
    reads Tokens(all)
  {
    forall k :: n <= k < |all| ==> TagOk(all[k].token, o)
  }

  /** Of the first n tokens, those with a body that is not pending have its address. */
  ghost predicate Placed(all: seq<Node>, work: seq<Node>, n: nat, m: map<Token, Extent>)
    requires n <= |all|
    reads Tokens(all)
  {
    forall k :: 0 <= k < n && all[k].token.Composite() && all[k] !in work ==>
      all[k].token in m && all[k].token.body == DPS_BINOBJ_SIZE * m[all[k].token].start
  }

  ghost predicate Within(m: map<Token, Extent>, m1: map<Token, Extent>) {
    forall t :: t in m ==> t in m1 && m1[t] == m[t]
  }

  lemma {:induction false} WorkIsOfWalk(all: seq<Node>, list: seq<Node>, work: seq<Node>, n: nat)
    requires Walking(all, list, work, n)
    ensures PushAll(list, work) != [] ==> PushAll(list, work)[0].token in Tokens(all)
  {
    Advance(all, list, work, n);
    if PushAll(list, work) != [] {
      WorkAfter(all, list, work, n);
      PendingNode(all, n + |list|, PushAll(list, work));
    }
  }

  lemma {:induction false} LayoutPop(all: seq<Node>, list: seq<Node>, work: seq<Node>, n: nat, m: map<Token, Extent>)
    requires Walking(all, list, work, n) && Within(Layout(list, work, n), m) && PushAll(list, work) != []
    ensures var w, n1 := PushAll(list, work), n + |list|;
            && w[0].token in m && m[w[0].token].start == n1 && Within(Layout(w[0].body, w[1..], n1), m)
            && w[0] in all && w[0].token.Composite()
  {
    hide Order, Laid, PushAll, Fits, Distinct;
    var w, n1 := PushAll(list, work), n + |list|;
    Advance(all, list, work, n);
    WorkAfter(all, list, work, n);
    LayoutOk(all, w[0].body, w[1..], n1);
    LaidKeys(all, n1, w[1..], n1 + |w[0].body|, Layout(w[0].body, w[1..], n1));
    NotYetLaid(all, n1, w, Layout(w[0].body, w[1..], n1));
    PendingNode(all, n1, w);
  }

  lemma {:induction false} LaidKeys(all: seq<Node>, n: nat, work: seq<Node>, lo: nat, m: map<Token, Extent>)
    requires Laid(all, n, work, lo, m)
    ensures forall t :: t in m ==> InWalk(all, n, work, t)
  {
  }

  lemma {:induction false} PendingNode(all: seq<Node>, n: nat, w: seq<Node>)
    requires n <= |all| && w != [] && Fits(all, n, w)
    ensures w[0] in all && w[0].token.Composite()
  {
    assert w[0] in w && w[0] in all[..n];
  }

  // ----- the data behind the objects -----

  /** The tokens of a list are different tokens of the walk, each put there for the use u. */
  ghost predicate Chosen(all: seq<Node>, list: seq<Token>, u: Use, o: Options)
    requires ValidTokens(all, o)
  {
    && (forall i, j :: 0 <= i < j < |list| ==> list[i] != list[j])
    && (forall i :: 0 <= i < |list| ==> list[i] in Tokens(all) && ValidToken(list[i]) && Spelled(list[i], o) && UseOf(list[i], o) == u)
  }

  lemma {:induction false} GatherChosen(all: seq<Node>, n: nat, u: Use, o: Options)
    requires n <= |all| && Distinct(all) && ValidTokens(all, o)
    ensures Chosen(all, Gather(all, n, u, o), u, o)
    ensures forall t :: t in Gather(all, n, u, o) ==> exists k :: 0 <= k < n && all[k].token == t
  {
    if n > 0 {
      GatherChosen(all, n - 1, u, o);
      var rest := Gather(all, n - 1, u, o);
      if UseOf(all[n - 1].token, o) == u {
        forall i | 0 <= i < |rest| ensures rest[i] != all[n - 1].token {
          assert rest[i] in rest;
        }
      }
    }
  }

  /** The bytes that an array argument adds when its length is known. */
  function ArrayBytes(t: Token): nat
    requires ValidToken(t) && t.namedFormal.Some?
  {
    if t.namedFormal.value.constant then t.namedFormal.value.val * DPS_BINOBJ_SIZE else 0
  }

  /** (n + WORD_ALIGN) & ~WORD_ALIGN, for the -p flag */
  function Padded(n: nat, pad: bool): (r: nat)
    ensures r >= n && (pad ==> r % 4 == 0 && r < n + 4)
  {
    if pad then (n + 3) / 4 * 4 else n
  }

  function StringBytes(t: Token, pad: bool): nat
    requires ValidToken(t) && t.namedFormal.Some?
  {
    if t.namedFormal.value.subscripted && t.namedFormal.value.constant then Padded(t.namedFormal.value.val, pad) else 0
  }

  /** All tokens of a list refer to formals. */
  predicate Formals(list: seq<Token>) {
    forall i :: 0 <= i < |list| ==> ValidToken(list[i]) && list[i].namedFormal.Some?
  }

  function ArraysSize(list: seq<Token>): nat
    requires Formals(list)
  {
    if list == [] then 0 else ArraysSize(list[..|list| - 1]) + ArrayBytes(list[|list| - 1])
  }

  function StringsSize(list: seq<Token>, pad: bool): nat
    requires Formals(list)
  {
    if list == [] then 0 else StringsSize(list[..|list| - 1], pad) + StringBytes(list[|list| - 1], pad)
  }

  lemma {:induction false} ChosenFormals(all: seq<Node>, list: seq<Token>, u: Use, o: Options)
    requires ValidTokens(all, o) && Chosen(all, list, u, o)
    ensures u == NamedArray || u == NamedString ==> Formals(list)
    ensures u == LiteralString ==> AllValid(list)
    ensures u != Alone ==> forall i :: 0 <= i < |list| ==> !list[i].Composite() && !SystemName(list[i], o)
  {
  }

  lemma {:induction false} ArraysStart(list: seq<Token>)
    requires Formals(list)
    ensures ArraysSize(list[..0]) == 0
  {
  }

  lemma {:induction false} ArraysNext(list: seq<Token>, i: nat)
    requires Formals(list) && i < |list|
    ensures Formals(list[..i]) && Formals(list[..i + 1])
    ensures ArraysSize(list[..i + 1]) == ArraysSize(list[..i]) + ArrayBytes(list[i])
  {
    assert list[..i + 1][..i] == list[..i];
  }

  /** The loop over the array arguments. */
  method PlaceArrays(list: seq<Token>, nextAdr0: int) returns (nextAdr: int)
    requires Formals(list) && forall i, j :: 0 <= i < j < |list| ==> list[i] != list[j]
    modifies list`body
    ensures nextAdr == nextAdr0 + ArraysSize(list)
    ensures forall i :: 0 <= i < |list| ==> list[i].body == nextAdr0 + ArraysSize(list[..i])
  {
    hide ArraysSize, ValidToken;
    nextAdr := nextAdr0;
    ArraysStart(list);
    var i := 0;
    while i < |list|
      invariant 0 <= i <= |list| && nextAdr == nextAdr0 + ArraysSize(list[..i])
      invariant forall j :: 0 <= j < i ==> list[j].body == nextAdr0 + ArraysSize(list[..j])
    {
      ArraysNext(list, i);
      list[i].body := nextAdr;
      if list[i].namedFormal.value.constant {
        nextAdr := nextAdr + list[i].namedFormal.value.val * DPS_BINOBJ_SIZE;
      }
      i := i + 1;
    }
    assert list[..i] == list;
  }

  /** The loop over the string arguments. */
  method PlaceNamedStrings(list: seq<Token>, nextAdr0: int, pad: bool) returns (nextAdr: int)
    requires Formals(list) && forall i, j :: 0 <= i < j < |list| ==> list[i] != list[j]
    modifies list`body
    ensures nextAdr == nextAdr0 + StringsSize(list, pad)
    ensures forall i :: 0 <= i < |list| ==> list[i].body == nextAdr0 + StringsSize(list[..i], pad)
  {
    hide StringsSize, ValidToken;
    nextAdr := nextAdr0;
    StringsStart(list, pad);
    var i := 0;
    while i < |list|
      invariant 0 <= i <= |list| && nextAdr == nextAdr0 + StringsSize(list[..i], pad)
      invariant forall j :: 0 <= j < i ==> list[j].body == nextAdr0 + StringsSize(list[..j], pad)
    {
      StringsNext(list, i, pad);
      list[i].body := nextAdr;
      var item := list[i].namedFormal.value;
      if item.subscripted && item.constant {
        nextAdr := nextAdr + Padded(item.val, pad);
      }
      i := i + 1;
    }
    assert list[..i] == list;
  }

  lemma {:induction false} StringsStart(list: seq<Token>, pad: bool)
    requires Formals(list)
    ensures StringsSize(list[..0], pad) == 0
  {
  }

  lemma {:induction false} StringsNext(list: seq<Token>, i: nat, pad: bool)
    requires Formals(list) && i < |list|
    ensures Formals(list[..i]) && Formals(list[..i + 1])
    ensures StringsSize(list[..i + 1], pad) == StringsSize(list[..i], pad) + StringBytes(list[i], pad)
  {
    assert list[..i + 1][..i] == list[..i];
  }

  /** The loops of CheckSize over the arguments. */
  method SumArrays(list: seq<Token>) returns (size: nat)
    requires Formals(list)
    ensures size == ArraysSize(list)
  {
    hide ArraysSize, ValidToken;
    size := 0;
    ArraysStart(list);
    var i := 0;
    while i < |list|
      invariant 0 <= i <= |list| && size == ArraysSize(list[..i])
    {
      ArraysNext(list, i);
      if list[i].namedFormal.value.constant {
        size := size + list[i].namedFormal.value.val * DPS_BINOBJ_SIZE;
      }
      i := i + 1;
    }
    assert list[..i] == list;
  }

  method SumStrings(list: seq<Token>, pad: bool) returns (size: nat)
    requires Formals(list)
    ensures size == StringsSize(list, pad)
  {
    hide StringsSize, ValidToken;
    size := 0;
    StringsStart(list, pad);
    var i := 0;
    while i < |list|
      invariant 0 <= i <= |list| && size == StringsSize(list[..i], pad)
    {
      StringsNext(list, i, pad);
      var item := list[i].namedFormal.value;
      if item.subscripted && item.constant {
        size := size + Padded(item.val, pad);
      }
      i := i + 1;
    }
    assert list[..i] == list;
  }

  // ----- the three procedures -----

  /** The bytes of the whole sequence: the objects, and the data whose length is known. */
  function TotalSize(all: seq<Node>, o: Options): nat
    requires Distinct(all) && ValidTokens(all, o)
  {
    var n := |all|;
    GatherChosen(all, n, NamedArray, o);
    GatherChosen(all, n, NamedString, o);
    GatherChosen(all, n, LiteralString, o);
    ChosenFormals(all, Gather(all, n, NamedArray, o), NamedArray, o);
    ChosenFormals(all, Gather(all, n, NamedString, o), NamedString, o);
    ChosenFormals(all, Gather(all, n, LiteralString, o), LiteralString, o);
    DPS_BINOBJ_SIZE * n + ArraysSize(Gather(all, n, NamedArray, o)) + Place(Gather(all, n, LiteralString, o), map[], 0, 0).end
    + StringsSize(Gather(all, n, NamedString, o), o.pad)
  }

  // ----- the round trip -----

  /** The objects of the tokens without a body. */
  ghost function Leaves(all: seq<Node>, o: Options): map<Token, Object>
    requires ValidTokens(all, o)
    reads Tokens(all)
  {
    map t | t in Tokens(all) && ValidToken(t) && Spelled(t, o) && !t.Composite() :: FieldOf(t, 0, o)
  }

  lemma {:induction false} FieldOfLeaf(t: Token, n: nat, o: Options)
    requires ValidToken(t) && Spelled(t, o)
    ensures !t.Composite() ==> FieldOf(t, n, o) == FieldOf(t, 0, o) && (FieldOf(t, n, o).dpsType == DpsArray ==> FieldOf(t, n, o).param)
    ensures t.Composite() ==> FieldOf(t, n, o) == Object(t.kind == TProc, DpsArray, n, Offset(t.body), false)
  {
  }

  /** Once all addresses are assigned, reading the table from offset 0 gives the token tree back. */
  lemma {:induction false} TableDecodes(body: seq<Node>, all: seq<Node>, objects: seq<Object>, o: Options)
    requires all == Order(body, []) && Distinct(all) && ValidTokens(all, o) && Placed(all, [], |all|, Layout(body, [], 0))
    requires |objects| == |all| && Emitted(all, objects, o)
    ensures |body| <= |objects| && Decode(objects, 0, |body|) == Shape(body, Leaves(all, o))
    ensures Tiled(Layout(body, [], 0), |body|, |all|)
  {
    hide Order, Layout, Decode, Shape, FieldOf, ValidToken, Distinct;
    var m := Layout(body, [], 0);
    WalkStarts(body);
    OrderStarts(all, body, [], 0);
    LayoutStarts(body, all);
    var leaf := Leaves(all, o);
    forall k | 0 <= k < |all| ensures
      if all[k].token.Composite() then
        objects[k] == Object(all[k].token.kind == TProc, DpsArray, |all[k].body|, Offset(DPS_BINOBJ_SIZE * m[all[k].token].start), false)
      else all[k].token in leaf && objects[k] == leaf[all[k].token] && (objects[k].dpsType == DpsArray ==> objects[k].param)
    {
      FieldOfLeaf(all[k].token, |all[k].body|, o);
      assert all[k].token in Tokens(all);
      assert LaidAt(all, all[k], m, k + 1) || !all[k].token.Composite();
    }
    assert Tabled(objects, all, m, leaf);
    DecodeShape(objects, all, m, leaf, 0, |body|);
    assert all[0..0 + |body|] == body;
  }

  lemma {:induction false} LayoutStarts(body: seq<Node>, all: seq<Node>)
    requires all == Order(body, []) && Distinct(all)
    ensures var m := Layout(body, [], 0);
            Tiled(m, |body|, |all|) && forall k :: 0 <= k < |all| && all[k].token.Composite() ==> LaidAt(all, all[k], m, k + 1)
  {
    WalkStarts(body);
    LayoutOk(all, body, [], 0);
    hide Tiled, LaidAt, Order, Layout;
  }

  /** ConstructStatics: the initialisers agree with the fields that were declared, in number, order and length, and the
      objects read from offset 0 are the token tree. */
  method ConstructStatics(body: seq<Node>, o: Options, nObjs: nat, ghost all: seq<Node>)
      returns (objects: seq<Object>, printed: seq<seq<string>>, split: bool)
    requires all == Order(body, []) && Distinct(all) && ValidTokens(all, o) && Assigned(all, |all|, o)
    requires Placed(all, [], |all|, Layout(body, [], 0))
    requires AllValid(Gather(all, |all|, LiteralString, o))
    requires nObjs == |all| + |Place(Gather(all, |all|, LiteralString, o), map[], 0, 0).stored|
    ensures |objects| == |all| && |objects| + |printed| == nObjs && Emitted(all, objects, o)
    ensures Printed(printed, Place(Gather(all, |all|, LiteralString, o), map[], 0, 0).stored)
    ensures split <==> Gather(all, |all|, NamedArray, o) != [] && Gather(all, |all|, LiteralString, o) != []
    ensures |body| <= |objects| && Decode(objects, 0, |body|) == Shape(body, Leaves(all, o))
  {
    hide Order, Distinct, ValidTokens, Layout, Place, Gather, AllValid, Decode, Shape, FieldOf;
    var strings, isNamedInputArrays;
    objects, strings, isNamedInputArrays := EmitObjects(body, o, all);
    split := strings != [] && isNamedInputArrays;
    printed := PrintLiterals(strings);
    TableDecodes(body, all, objects, o);
    PrintedLength(printed, Place(strings, map[], 0, 0).stored);
  }

  lemma {:induction false} PrintedLength(printed: seq<seq<string>>, stored: seq<Token>)
    requires AllValid(stored) && Printed(printed, stored)
    ensures |printed| == |stored|
  {
  }
}
