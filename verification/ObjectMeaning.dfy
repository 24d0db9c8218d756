/** What a reader makes of the binary objects that pswrap emits (section 3.14.2 of the PostScript Language Reference, third
    edition), and that it is what the tokens of the wrap stand for. */
module ObjectMeaning {
  import opened ObjectLayout
  import opened StringSharing
  import opened BinaryObjects
  import opened WrapStrings

  /** A number has its type and its text; strings and names have their characters.  An Argument is an object that a
      parameter of the wrap goes into, with its length as far as that is fixed. */
  datatype Meaning =
    | Number(dpsType: ObjectType, text: string)
    | StringOf(chars: seq<int>)
    | NameOf(exec: bool, chars: seq<int>)
    | SystemNameOf(exec: bool, number: int)
    | UserNameOf(exec: bool)
    | Argument(dpsType: ObjectType, exec: bool, length: int)
    | Body(exec: bool, elements: seq<Meaning>)
    | Unreadable

  // ----- the tokens -----

  /** The subscript of the formal, if the declaration fixes it. */
  function FixedLength(item: Item): nat {
    if item.subscripted && item.constant then item.val else 0
  }

  /** What a token without a body stands for. */
  function LeafMeaning(t: Token, o: Options): Meaning
    requires ValidToken(t) && Spelled(t, o) && !t.Composite()
  {
    if t.kind == TBoolean then Number(DpsBool, t.val)
    else if t.kind == TInt then Number(DpsInt, t.val)
    else if t.kind == TFloat then Number(DpsReal, t.val)
    else if t.kind == TSubscripted then Argument(t.namedFormal.value.dpsType, false, 0)
    else if t.namedFormal.Some? then ArgumentMeaning(t.kind, t.namedFormal.value)
    else if t.kind == TString || t.kind == THexString then StringOf(CharsOf(t))
    else if t.val in o.known then SystemNameOf(t.kind == TName, o.known[t.val])
    else if o.noUserNames then NameOf(t.kind == TName, CharsOf(t))
    else UserNameOf(t.kind == TName)
  }

  /** A token that names a formal: a string (name), an executable name /name, or whatever the type of the formal is. */
  function ArgumentMeaning(kind: Type, item: Item): Meaning {
    if kind == TString then Argument(DpsString, false, FixedLength(item))
    else if kind == TLitName then Argument(DpsName, false, 0)
    else if item.dpsType == DpsString then Argument(DpsName, true, FixedLength(item))
    else if item.subscripted then Argument(DpsArray, false, FixedLength(item))
    else Argument(item.dpsType, false, 0)
  }

  function Meant(list: seq<Node>, o: Options): seq<Meaning> {
    if list == [] then [] else [MeantOne(list[0], o)] + Meant(list[1..], o)
  }

  function MeantOne(x: Node, o: Options): Meaning {
    if x.token.Composite() then Body(x.token.kind == TProc, Meant(x.body, o))
    else if ValidToken(x.token) && Spelled(x.token, o) then LeafMeaning(x.token, o)
    else Unreadable
  }

  // ----- the objects -----

  /** The characters an object points at; the data start at `base`. */
  function Characters(o: Object, data: seq<int>, base: int): seq<int> {
    if o.length > 0 && o.value.Offset? && base <= o.value.offset && o.value.offset - base + o.length <= |data|
    then data[o.value.offset - base..o.value.offset - base + o.length]
    else []
  }

  /** An object that is not an array with its elements: a name of length 0 is a user name, one of length DPSSYSNAME a
      system name. */
  function Understood(o: Object, data: seq<int>, base: int): Meaning {
    if o.param then Argument(o.dpsType, o.exec, o.length)
    else if o.dpsType == DpsString then StringOf(Characters(o, data, base))
    else if o.dpsType == DpsName then
      if o.length == DPSSYSNAME && o.value.Offset? then SystemNameOf(o.exec, o.value.offset)
      else if o.length == 0 then UserNameOf(o.exec)
      else NameOf(o.exec, Characters(o, data, base))
    else if o.dpsType != DpsArray && o.value.Text? && !o.exec then Number(o.dpsType, o.value.text)
    else Unreadable
  }

  function UnderstoodAll(trees: seq<Tree>, data: seq<int>, base: int): seq<Meaning> {
    if trees == [] then [] else [UnderstoodOne(trees[0], data, base)] + UnderstoodAll(trees[1..], data, base)
  }

  function UnderstoodOne(tree: Tree, data: seq<int>, base: int): Meaning {
    match tree
    case Leaf(o) => Understood(o, data, base)
    case Composite(exec, children) => Body(exec, UnderstoodAll(children, data, base))
  }

  // ----- they agree -----

  /** A name that is to be spelled out, but whose length says that it is a user name or a system name. */
  predicate Mistakable(t: Token, o: Options)
    requires ValidToken(t) && Spelled(t, o)
  {
    t.kind in {TName, TLitName} && t.namedFormal.None? && t.val !in o.known && o.noUserNames
    && (|CharsOf(t)| == 0 || |CharsOf(t)| == DPSSYSNAME)
  }

  predicate NamesReadable(all: seq<Node>, o: Options)
    requires ValidTokens(all, o)
  {
    forall k :: 0 <= k < |all| ==> !Mistakable(all[k].token, o)
  }

  /** The literal points at its own characters. */
  ghost predicate PointsRight(t: Token, data: seq<int>, base: int, o: Options)
    requires ValidToken(t)
    reads t
  {
    UseOf(t, o) == LiteralString ==>
      ValidLiteral(t) && base <= t.body && t.body - base + |CharsOf(t)| <= |data|
      && data[t.body - base..t.body - base + |CharsOf(t)|] == CharsOf(t)
  }

  lemma {:induction false} NoCharacters(s: string)
    ensures Encoded(s) ==> (Chars(s) == [] <==> s == "")
    ensures HexChars(s) == [] <==> s == ""
  {
  }

  lemma {:induction false} NameUnderstood(t: Token, n: nat, data: seq<int>, base: int, o: Options)
    requires ValidToken(t) && Spelled(t, o) && (t.kind == TName || t.kind == TLitName) && TagSet(t, o)
    requires (SystemName(t, o) ==> t.body == o.known[t.val]) && PointsRight(t, data, base, o)
    ensures Understood(FieldOf(t, n, o), data, base) == LeafMeaning(t, o) <==> !Mistakable(t, o)
  {
    hide Chars, Encoded, HexChars;
  }

  lemma {:induction false} StringUnderstood(t: Token, n: nat, data: seq<int>, base: int, o: Options)
    requires ValidToken(t) && (t.kind == TString || t.kind == THexString) && PointsRight(t, data, base, o)
    ensures Understood(FieldOf(t, n, o), data, base) == LeafMeaning(t, o)
  {
    hide Chars, Encoded, HexChars, Hex, ValidLiteral;
    NoCharacters(t.val);
    if t.kind == THexString { HexLengths(t.val); }
  }

  /** Of every token without a body a reader gets what it stands for, unless it is a name of a mistakable length. */
  lemma {:induction false} LeafUnderstood(t: Token, n: nat, data: seq<int>, base: int, o: Options)
    requires ValidToken(t) && Spelled(t, o) && !t.Composite() && TagSet(t, o)
    requires (SystemName(t, o) ==> t.body == o.known[t.val]) && PointsRight(t, data, base, o)
    ensures Understood(FieldOf(t, n, o), data, base) == LeafMeaning(t, o) <==> !Mistakable(t, o)
  {
    if t.kind == TName || t.kind == TLitName { NameUnderstood(t, n, data, base, o); }
    else if t.kind == TString || t.kind == THexString { StringUnderstood(t, n, data, base, o); }
  }

  /** The k-th object is read as the k-th token of the walk. */
  ghost predicate Readable(objects: seq<Object>, all: seq<Node>, m: map<Token, Extent>, data: seq<int>, base: int, o: Options) {
    && |objects| == |all|
    && forall k :: 0 <= k < |all| ==>
         if all[k].token.Composite() then
           LaidAt(all, all[k], m, k + 1)
           && objects[k] == Object(all[k].token.kind == TProc, DpsArray, |all[k].body|, Offset(DPS_BINOBJ_SIZE * m[all[k].token].start), false)
         else (objects[k].dpsType == DpsArray ==> objects[k].param) && Understood(objects[k], data, base) == MeantOne(all[k], o)
  }

  lemma {:induction false} DecodeMeans(objects: seq<Object>, all: seq<Node>, m: map<Token, Extent>, data: seq<int>, base: int, o: Options, at: nat, count: nat)
    requires Readable(objects, all, m, data, base, o) && at + count <= |all|
    ensures UnderstoodAll(Decode(objects, at, count), data, base) == Meant(all[at..at + count], o)
    decreases |all| - at, 1
  {
    if count > 0 {
      DecodeMeansOne(objects, all, m, data, base, o, at);
      DecodeMeans(objects, all, m, data, base, o, at + 1, count - 1);
      assert all[at..at + count] == [all[at]] + all[at + 1..at + 1 + (count - 1)];
      assert ([DecodeOne(objects, at)] + Decode(objects, at + 1, count - 1))[1..] == Decode(objects, at + 1, count - 1);
      assert ([all[at]] + all[at + 1..at + 1 + (count - 1)])[1..] == all[at + 1..at + 1 + (count - 1)];
    }
  }

  lemma {:induction false} DecodeMeansOne(objects: seq<Object>, all: seq<Node>, m: map<Token, Extent>, data: seq<int>, base: int, o: Options, at: nat)
    requires Readable(objects, all, m, data, base, o) && at < |all|
    ensures UnderstoodOne(DecodeOne(objects, at), data, base) == MeantOne(all[at], o)
    decreases |all| - at, 0
  {
    hide Understood, LeafMeaning;
    if all[at].token.Composite() {
      var e := m[all[at].token];
      assert LaidAt(all, all[at], m, at + 1) && DPS_BINOBJ_SIZE * e.start / DPS_BINOBJ_SIZE == e.start;
      DecodeMeans(objects, all, m, data, base, o, e.start, |all[at].body|);
      assert all[e.start..e.start + |all[at].body|] == all[at].body;
    }
  }

  /** The literal strings are those tokens of the walk, and every one points at its own characters if sharing is right. */
  lemma {:induction false} LiteralsPointRight(w: Wrap, all: seq<Node>, size: nat, o: Options, k: nat)
    requires Distinct(all) && ValidTokens(all, o) && w.Gathered(all, |all|, o) && k < |all|
    requires Formals(w.namedInputArrays) && Formals(w.namedInputStrings) && AllValid(w.literalStrings) && w.DataPlaced(size, o)
    requires AllRight(w.literalStrings)
    ensures PointsRight(all[k].token, Bytes(Place(w.literalStrings, map[], 0, 0).stored), size + ArraysSize(w.namedInputArrays), o)
  {
    hide Place, Bytes, ArraysSize, StringsSize, ValidLiteral, CharsOf;
    var t := all[k].token;
    if UseOf(t, o) == LiteralString {
      GatheredAll(all, |all|, LiteralString, o, k);
      var i :| 0 <= i < |w.literalStrings| && w.literalStrings[i] == t;
      PlaceAll(w.literalStrings);
      assert ValidLiteral(w.literalStrings[i]);
    }
  }

  lemma {:induction false} GatheredAll(all: seq<Node>, n: nat, u: Use, o: Options, k: nat)
    requires k < n <= |all| && ValidTokens(all, o) && UseOf(all[k].token, o) == u
    ensures all[k].token in Gather(all, n, u, o)
  {
    if k < n - 1 { GatheredAll(all, n - 1, u, o, k); }
  }

  /** The table and the characters behind it, as BuildTypesAndAssignAddresses places them and ConstructStatics prints them,
      read from offset 0, are the tokens of the wrap. */
  lemma {:induction false} TableMeansTokens(w: Wrap, body: seq<Node>, all: seq<Node>, objects: seq<Object>, size: nat, o: Options)
    requires all == Order(body, []) && Distinct(all) && ValidTokens(all, o) && Placed(all, [], |all|, Layout(body, [], 0))
    requires Assigned(all, |all|, o) && Numbered(all, |all|, o) && w.Gathered(all, |all|, o)
    requires Formals(w.namedInputArrays) && Formals(w.namedInputStrings) && AllValid(w.literalStrings) && w.DataPlaced(size, o)
    requires |objects| == |all| && Emitted(all, objects, o)
    requires AllRight(w.literalStrings) && NamesReadable(all, o)
    ensures |body| <= |objects|
    ensures UnderstoodAll(Decode(objects, 0, |body|), Bytes(Place(w.literalStrings, map[], 0, 0).stored), size + ArraysSize(w.namedInputArrays)) == Meant(body, o)
  {
    hide Order, Layout, Decode, FieldOf, ValidToken, Distinct, Understood, LeafMeaning, PointsRight, Place, Bytes, ArraysSize, AllRight,
         Formals, AllValid, Mistakable, Wrap.DataPlaced, Wrap.Gathered;
    var m := Layout(body, [], 0);
    WalkStarts(body);
    OrderStarts(all, body, [], 0);
    LayoutStarts(body, all);
    var data, base := Bytes(Place(w.literalStrings, map[], 0, 0).stored), size + ArraysSize(w.namedInputArrays);
    forall k | 0 <= k < |all| ensures
      if all[k].token.Composite() then
        objects[k] == Object(all[k].token.kind == TProc, DpsArray, |all[k].body|, Offset(DPS_BINOBJ_SIZE * m[all[k].token].start), false)
      else (objects[k].dpsType == DpsArray ==> objects[k].param) && Understood(objects[k], data, base) == MeantOne(all[k], o)
    {
      FieldOfLeaf(all[k].token, |all[k].body|, o);
      assert all[k].token in Tokens(all);
      if all[k].token.Composite() {
        assert LaidAt(all, all[k], m, k + 1);
      } else {
        LiteralsPointRight(w, all, size, o, k);
        LeafUnderstood(all[k].token, |all[k].body|, data, base, o);
      }
    }
    assert Readable(objects, all, m, data, base, o);
    DecodeMeans(objects, all, m, data, base, o, 0, |body|);
    assert all[0..0 + |body|] == body;
  }

  /** The literal name / with user names off: it is sent as the user name of some number. */
  lemma {:induction false} EmptyNameIsMistaken(t: Token, o: Options, data: seq<int>, base: int)
    requires t.kind == TLitName && t.val == "" && t.namedFormal.None? && !t.wellKnownName && o.noUserNames && "" !in o.known
    ensures ValidToken(t) && Spelled(t, o) && Mistakable(t, o)
    ensures LeafMeaning(t, o) == NameOf(false, []) && Understood(FieldOf(t, 0, o), data, base) == UserNameOf(false)
  {
    NoCharacters(t.val);
  }
}
