/** EmitLocals, FixupOffsets and WriteObjSeq of pswrap's psw.c: the code they emit, run with the arguments of one call.
    One procedure computes the offsets that go into the objects, another one writes the bytes. */
module RuntimeOffsets {
  import opened ObjectLayout
  import opened StringSharing
  import opened BinaryObjects
  import PswDict
  import WrapStrings

  /** The arguments of a call: the subscript or string length of every formal that is not constant. */
  type Arguments = Item -> nat

  function CountOf(t: Token, args: Arguments): nat
    requires t.namedFormal.Some?
  {
    var item := t.namedFormal.value;
    if item.subscripted && item.constant then item.val else args(item)
  }

  /** A wrap that is laid out: its lists, the bytes of its objects and literals, and the flags. */
  datatype Compiled = Compiled(arrays: seq<Token>, strings: seq<Token>, literals: seq<Token>, size: nat, stringBytes: nat,
                               twoStatics: bool, header: nat, pad: bool)

  ghost predicate Valid(c: Compiled) {
    && Formals(c.arrays) && Formals(c.strings) && AllValid(c.literals) && Apart(c.arrays, c.strings, c.literals)
    && c.stringBytes == Place(c.literals, map[], 0, 0).end
    && (c.twoStatics <==> c.arrays != [] && c.literals != [])
    && forall i :: 0 <= i < |c.arrays| ==> c.arrays[i].namedFormal.value.subscripted
  }

  // ----- what is written -----

  datatype Write =
    | Objects(bytes: nat)                 // DPSBinObjSeqWrite: header, objects and, in one static, the literals
    | ArrayData(token: Token, bytes: nat) // DPSWriteTypedObjectArray
    | Chars(token: Token, bytes: nat)     // DPSWriteStringChars
    | PadBytes(bytes: nat)
    | Literals(bytes: nat)                // the second static

  function Length(writes: seq<Write>): nat {
    if writes == [] then 0 else Length(writes[..|writes| - 1]) + writes[|writes| - 1].bytes
  }

  /** x is written, and this many bytes before it. */
  ghost predicate WrittenAt(writes: seq<Write>, x: Write, position: int) {
    exists k :: 0 <= k < |writes| && writes[k] == x && Length(writes[..k]) == position
  }

  lemma {:induction false} LengthMore(writes: seq<Write>, x: Write)
    ensures Length(writes + [x]) == Length(writes) + x.bytes
    ensures WrittenAt(writes + [x], x, Length(writes))
  {
    assert (writes + [x])[..|writes|] == writes && (writes + [x])[|writes|] == x;
  }

  lemma {:induction false} WrittenStays(writes: seq<Write>, more: seq<Write>, y: Write, position: int)
    requires WrittenAt(writes, y, position) && writes <= more
    ensures WrittenAt(more, y, position)
  {
    var k :| 0 <= k < |writes| && writes[k] == y && Length(writes[..k]) == position;
    assert more[k] == y && more[..k] == writes[..k];
  }

  function ArrayWrite(t: Token, args: Arguments): Write
    requires t.namedFormal.Some?
  {
    ArrayData(t, CountOf(t, args) * DPS_BINOBJ_SIZE)
  }

  function CharsWrite(t: Token, args: Arguments): Write
    requires t.namedFormal.Some?
  {
    Chars(t, CountOf(t, args))
  }

  /** The bytes of the first arrays, and of the first strings with their padding. */
  function ArraysLength(list: seq<Token>, args: Arguments): nat
    requires Formals(list)
  {
    if list == [] then 0 else ArraysLength(list[..|list| - 1], args) + CountOf(list[|list| - 1], args) * DPS_BINOBJ_SIZE
  }

  function StringsLength(list: seq<Token>, pad: bool, args: Arguments): nat
    requires Formals(list)
  {
    if list == [] then 0 else StringsLength(list[..|list| - 1], pad, args) + Padded(CountOf(list[|list| - 1], args), pad)
  }

  lemma {:induction false} ArraysLengthNext(list: seq<Token>, i: nat, args: Arguments)
    requires Formals(list) && i < |list|
    ensures Formals(list[..i]) && Formals(list[..i + 1])
    ensures ArraysLength(list[..i + 1], args) == ArraysLength(list[..i], args) + CountOf(list[i], args) * DPS_BINOBJ_SIZE
  {
    assert list[..i + 1][..i] == list[..i];
  }

  lemma {:induction false} StringsLengthNext(list: seq<Token>, i: nat, pad: bool, args: Arguments)
    requires Formals(list) && i < |list|
    ensures Formals(list[..i]) && Formals(list[..i + 1])
    ensures StringsLength(list[..i + 1], pad, args) == StringsLength(list[..i], pad, args) + Padded(CountOf(list[i], args), pad)
  {
    assert list[..i + 1][..i] == list[..i];
  }

  /** ~(n + WORD_ALIGN) & WORD_ALIGN */
  function PadLength(n: nat): nat {
    3 - (n + 3) % 4
  }

  /** The padding fills the string up to what FixupOffsets counts for it. */
  lemma {:induction false} PadFills(n: nat)
    ensures n + PadLength(n) == Padded(n, true)
  {
  }

  /** The loop over the array arguments. */
  method WriteArrays(list: seq<Token>, args: Arguments, before: seq<Write>) returns (writes: seq<Write>)
    requires Formals(list)
    ensures before <= writes && Length(writes) == Length(before) + ArraysLength(list, args)
    ensures forall j :: 0 <= j < |list| ==> WrittenAt(writes, ArrayWrite(list[j], args), Length(before) + ArraysLength(list[..j], args))
  {
    hide Length, WrittenAt, ArraysLength, ValidToken;
    writes := before;
    NoArrays(list, args);
    var i := 0;
    while i < |list|
      invariant 0 <= i <= |list| && before <= writes && Length(writes) == Length(before) + ArraysLength(list[..i], args)
      invariant forall j :: 0 <= j < i ==> WrittenAt(writes, ArrayWrite(list[j], args), Length(before) + ArraysLength(list[..j], args))
    {
      ghost var w := writes;
      ArraysLengthNext(list, i, args);
      LengthMore(writes, ArrayWrite(list[i], args));
      writes := writes + [ArrayData(list[i], CountOf(list[i], args) * DPS_BINOBJ_SIZE)];
      forall j | 0 <= j < i ensures WrittenAt(writes, ArrayWrite(list[j], args), Length(before) + ArraysLength(list[..j], args)) {
        WrittenStays(w, writes, ArrayWrite(list[j], args), Length(before) + ArraysLength(list[..j], args));
      }
      i := i + 1;
    }
    assert list[..i] == list;
  }

  lemma {:induction false} NoArrays(list: seq<Token>, args: Arguments)
    requires Formals(list)
    ensures ArraysLength(list[..0], args) == 0
  {
  }

  lemma {:induction false} NoStrings(list: seq<Token>, pad: bool, args: Arguments)
    requires Formals(list)
    ensures StringsLength(list[..0], pad, args) == 0
  {
  }

  /** One string argument and its padding; a constant length that needs none has no second write. */
  method WriteString(t: Token, args: Arguments, pad: bool, before: seq<Write>) returns (writes: seq<Write>)
    requires ValidToken(t) && t.namedFormal.Some?
    ensures before <= writes && Length(writes) == Length(before) + Padded(CountOf(t, args), pad)
    ensures WrittenAt(writes, CharsWrite(t, args), Length(before))
  {
    hide Length, WrittenAt, ValidToken, Padded;
    var n := CountOf(t, args);
    LengthMore(before, CharsWrite(t, args));
    writes := before + [Chars(t, n)];
    PadFills(n);
    PadNothing(n);
    if pad && (!(t.namedFormal.value.subscripted && t.namedFormal.value.constant) || PadLength(n) != 0) {
      LengthMore(writes, PadBytes(PadLength(n)));
      WrittenStays(writes, writes + [PadBytes(PadLength(n))], CharsWrite(t, args), Length(before));
      writes := writes + [PadBytes(PadLength(n))];
    }
  }

  lemma {:induction false} PadNothing(n: nat)
    ensures Padded(n, false) == n
  {
  }

  /** The loop over the string arguments. */
  method WriteStrings(list: seq<Token>, args: Arguments, pad: bool, before: seq<Write>) returns (writes: seq<Write>)
    requires Formals(list)
    ensures before <= writes && Length(writes) == Length(before) + StringsLength(list, pad, args)
    ensures forall j :: 0 <= j < |list| ==> WrittenAt(writes, CharsWrite(list[j], args), Length(before) + StringsLength(list[..j], pad, args))
  {
    hide Length, WrittenAt, StringsLength, ValidToken, Padded;
    writes := before;
    NoStrings(list, pad, args);
    var i := 0;
    while i < |list|
      invariant 0 <= i <= |list| && before <= writes && Length(writes) == Length(before) + StringsLength(list[..i], pad, args)
      invariant forall j :: 0 <= j < i ==> WrittenAt(writes, CharsWrite(list[j], args), Length(before) + StringsLength(list[..j], pad, args))
    {
      ghost var w := writes;
      StringsLengthNext(list, i, pad, args);
      writes := WriteString(list[i], args, pad, writes);
      forall j | 0 <= j < i ensures WrittenAt(writes, CharsWrite(list[j], args), Length(before) + StringsLength(list[..j], pad, args)) {
        WrittenStays(w, writes, CharsWrite(list[j], args), Length(before) + StringsLength(list[..j], pad, args));
      }
      i := i + 1;
    }
    assert list[..i] == list;
  }

  /** WriteObjSeq */
  method WriteObjSeq(c: Compiled, args: Arguments) returns (writes: seq<Write>)
    requires Valid(c)
    ensures Written(writes, c, args)
  {
    hide Length, WrittenAt, ArraysLength, StringsLength, Place, AllValid, Apart, ValidToken;
    var first := (if c.twoStatics then c.size else c.size + c.stringBytes) + c.header;
    LengthMore([], Objects(first));
    LengthNothing(c, args);
    assert [] + [Objects(first)] == [Objects(first)];
    var w1 := WriteArrays(c.arrays, args, [Objects(first)]);
    var w2 := WriteStrings(c.strings, args, c.pad, w1);
    forall j | 0 <= j < |c.arrays| ensures WrittenAt(w2, ArrayWrite(c.arrays[j], args), first + ArraysLength(c.arrays[..j], args)) {
      WrittenStays(w1, w2, ArrayWrite(c.arrays[j], args), first + ArraysLength(c.arrays[..j], args));
    }
    writes := w2;
    if c.twoStatics {
      LengthMore(writes, Literals(c.stringBytes));
      writes := writes + [Literals(c.stringBytes)];
      forall j | 0 <= j < |c.arrays| ensures WrittenAt(writes, ArrayWrite(c.arrays[j], args), first + ArraysLength(c.arrays[..j], args)) {
        WrittenStays(w2, writes, ArrayWrite(c.arrays[j], args), first + ArraysLength(c.arrays[..j], args));
      }
      forall j | 0 <= j < |c.strings|
        ensures WrittenAt(writes, CharsWrite(c.strings[j], args), first + ArraysLength(c.arrays, args) + StringsLength(c.strings[..j], c.pad, args))
      {
        WrittenStays(w2, writes, CharsWrite(c.strings[j], args), first + ArraysLength(c.arrays, args) + StringsLength(c.strings[..j], c.pad, args));
      }
    }
  }

  // ----- where the data are -----

  function First(c: Compiled): nat {
    (if c.twoStatics then c.size else c.size + c.stringBytes) + c.header
  }

  /** The byte of the sequence where the data of the i-th array argument start. */
  function ArrayPosition(c: Compiled, args: Arguments, i: nat): nat
    requires Formals(c.arrays) && i < |c.arrays|
  {
    First(c) + ArraysLength(c.arrays[..i], args)
  }

  function StringPosition(c: Compiled, args: Arguments, i: nat): nat
    requires Formals(c.arrays) && Formals(c.strings) && i < |c.strings|
  {
    First(c) + ArraysLength(c.arrays, args) + StringsLength(c.strings[..i], c.pad, args)
  }

  /** The byte where the stored literals start: behind the objects, or in a static of their own. */
  function LiteralsPosition(c: Compiled, args: Arguments): nat
    requires Formals(c.arrays) && Formals(c.strings)
  {
    if c.twoStatics then First(c) + ArraysLength(c.arrays, args) + StringsLength(c.strings, c.pad, args) else c.header + c.size
  }

  function TotalLength(c: Compiled, args: Arguments): nat
    requires Formals(c.arrays) && Formals(c.strings)
  {
    First(c) + ArraysLength(c.arrays, args) + StringsLength(c.strings, c.pad, args) + if c.twoStatics then c.stringBytes else 0
  }

  /** Each array, then each string with its padding, then the second static, are written just there. */
  ghost predicate Written(writes: seq<Write>, c: Compiled, args: Arguments)
    requires Valid(c)
  {
    && writes != [] && writes[0] == Objects(First(c))
    && (forall j :: 0 <= j < |c.arrays| ==> WrittenAt(writes, ArrayWrite(c.arrays[j], args), ArrayPosition(c, args, j)))
    && (forall j :: 0 <= j < |c.strings| ==> WrittenAt(writes, CharsWrite(c.strings[j], args), StringPosition(c, args, j)))
    && (c.twoStatics ==> WrittenAt(writes, Literals(c.stringBytes), LiteralsPosition(c, args)))
    && Length(writes) == TotalLength(c, args)
  }

  // ----- the offsets in the objects -----

  /** The offsets, counted from the end of the header, lead to the data; the total length is right. */
  ghost predicate Agrees(c: Compiled, args: Arguments, arrays: seq<int>, strings: seq<int>, literals: seq<int>, nBytes: int)
    requires Valid(c)
  {
    && |arrays| == |c.arrays| && |strings| == |c.strings| && |literals| == |c.literals|
    && (forall i :: 0 <= i < |c.arrays| ==> c.header + arrays[i] == ArrayPosition(c, args, i))
    && (forall i :: 0 <= i < |c.strings| ==> c.header + strings[i] == StringPosition(c, args, i))
    && (forall i :: 0 <= i < |c.literals| ==>
          c.header + literals[i] == LiteralsPosition(c, args) + Place(c.literals, map[], 0, 0).fields[i].offset)
    && nBytes == TotalLength(c, args)
  }

  /** EmitLocals, FixupOffsets and the assignment of nBytes, as run in one call of a writable wrap.  `fixed` are the
      offsets of the literals as they stand in the static. */
  method FixupOffsets(c: Compiled, args: Arguments, fixed: seq<int>) returns (arrays: seq<int>, strings: seq<int>, literals: seq<int>, nBytes: int)
    requires Valid(c) && |fixed| == |c.literals|
    requires forall i :: 0 <= i < |c.literals| ==> fixed[i] == c.size + ArraysSize(c.arrays) + Place(c.literals, map[], 0, 0).fields[i].offset
    ensures Agrees(c, args, arrays, strings, literals, nBytes)
  {
    hide ArraysLength, StringsLength, Place, AllValid, Apart, ValidToken, Padded, ArraysSize;
    var offset := if c.twoStatics then c.size else c.size + c.stringBytes;
    arrays, strings, literals := [], [], fixed;
    var i := 0;
    NoArrays(c.arrays, args);
    while i < |c.arrays|
      invariant 0 <= i <= |c.arrays| == |c.arrays| && |arrays| == i
      invariant c.header + offset == First(c) + ArraysLength(c.arrays[..i], args)
      invariant forall j :: 0 <= j < i ==> c.header + arrays[j] == ArrayPosition(c, args, j)
    {
      ArraysLengthNext(c.arrays, i, args);
      arrays := arrays + [offset];
      offset := offset + CountOf(c.arrays[i], args) * DPS_BINOBJ_SIZE;
      i := i + 1;
    }
    assert c.arrays[..i] == c.arrays;
    i := 0;
    NoStrings(c.strings, c.pad, args);
    while i < |c.strings|
      invariant 0 <= i <= |c.strings| && |strings| == i
      invariant c.header + offset == First(c) + ArraysLength(c.arrays, args) + StringsLength(c.strings[..i], c.pad, args)
      invariant forall j :: 0 <= j < i ==> c.header + strings[j] == StringPosition(c, args, j)
    {
      StringsLengthNext(c.strings, i, c.pad, args);
      strings := strings + [offset];
      offset := offset + Padded(CountOf(c.strings[i], args), c.pad);
      i := i + 1;
    }
    assert c.strings[..i] == c.strings;
    NoArraysSize(c);
    if c.arrays != [] {
      var distances, stringOffset := FixupLiterals(c.literals);
      literals := seq(|c.literals|, k requires 0 <= k < |c.literals| => offset + distances[k]);
      if stringOffset != 0 { offset := offset + stringOffset; }
    }
    nBytes := offset + c.header;
  }

  lemma {:induction false} NoArraysSize(c: Compiled)
    requires Valid(c)
    ensures c.arrays == [] ==> ArraysSize(c.arrays) == 0
    ensures c.literals == [] ==> c.stringBytes == 0
  {
  }

  lemma {:induction false} LengthNothing(c: Compiled, args: Arguments)
    requires Valid(c)
    ensures Length([]) == 0 && Formals([]) && ArraysLength([], args) == 0 && StringsLength([], c.pad, args) == 0
  {
  }

  // ----- the offsets that stand in the static -----

  predicate Constant(list: seq<Token>) {
    forall i :: 0 <= i < |list| ==> list[i].namedFormal.Some? && list[i].namedFormal.value.subscripted && list[i].namedFormal.value.constant
  }

  lemma {:induction false} ConstantArrays(list: seq<Token>, args: Arguments)
    requires Formals(list) && Constant(list)
    ensures ArraysLength(list, args) == ArraysSize(list)
  {
    if list != [] { ConstantArrays(list[..|list| - 1], args); }
  }

  lemma {:induction false} ConstantStrings(list: seq<Token>, pad: bool, args: Arguments)
    requires Formals(list) && Constant(list)
    ensures StringsLength(list, pad, args) == StringsSize(list, pad)
  {
    if list != [] { ConstantStrings(list[..|list| - 1], pad, args); }
  }

  /** The offsets that BuildTypesAndAssignAddresses gives: array arguments, literals, string arguments. */
  ghost predicate Static(c: Compiled, arrays: seq<int>, strings: seq<int>, literals: seq<int>, nBytes: int)
    requires Valid(c)
  {
    var base := c.size + ArraysSize(c.arrays);
    && |arrays| == |c.arrays| && |strings| == |c.strings| && |literals| == |c.literals|
    && (forall i :: 0 <= i < |c.arrays| ==> arrays[i] == c.size + ArraysSize(c.arrays[..i]))
    && (forall i :: 0 <= i < |c.literals| ==> literals[i] == base + Place(c.literals, map[], 0, 0).fields[i].offset)
    && (forall i :: 0 <= i < |c.strings| ==> strings[i] == base + c.stringBytes + StringsSize(c.strings[..i], c.pad))
    && nBytes == base + c.stringBytes + StringsSize(c.strings, c.pad) + c.header
  }

  /** When all lengths are constant the offsets of the static are used as they are.  They are right exactly when the
      literals need no static of their own, or there are no string arguments, or neither takes any bytes: the string
      arguments are written in front of the literals but counted behind them. */
  lemma {:induction false} StaticAgreesIff(c: Compiled, args: Arguments, arrays: seq<int>, strings: seq<int>, literals: seq<int>, nBytes: int)
    requires Valid(c) && Constant(c.arrays) && Constant(c.strings) && Static(c, arrays, strings, literals, nBytes)
    ensures Agrees(c, args, arrays, strings, literals, nBytes) <==>
            !c.twoStatics || c.strings == [] || (c.stringBytes == 0 && StringsSize(c.strings, c.pad) == 0)
  {
    hide ArraysLength, StringsLength, Place, AllValid, Apart, ValidToken, Padded;
    ConstantArrays(c.arrays, args);
    ConstantStrings(c.strings, c.pad, args);
    NoArraysSize(c);
    NoArrays(c.arrays, args);
    NoStrings(c.strings, c.pad, args);
    assert c.strings[..0] == [];
    forall i | 0 <= i < |c.arrays| ensures ArrayPosition(c, args, i) == First(c) + ArraysSize(c.arrays[..i]) {
      ConstantArrays(c.arrays[..i], args);
    }
    forall i | 0 <= i < |c.strings| ensures StringPosition(c, args, i) == First(c) + ArraysSize(c.arrays) + StringsSize(c.strings[..i], c.pad) {
      ConstantStrings(c.strings[..i], c.pad, args);
    }
    if c.twoStatics && Agrees(c, args, arrays, strings, literals, nBytes) && c.strings != [] {
      assert c.header + strings[0] == StringPosition(c, args, 0);
      assert c.header + literals[0] == LiteralsPosition(c, args) + Place(c.literals, map[], 0, 0).fields[0].offset;
    }
  }

  /** An array argument of three integers, a string argument of eight characters and the literal (x): the static says
      that the string is at 49 and the literal at 48, and they are written at 48 and 56. */
  lemma {:induction false} SwappedInStatic(a: Token, s: Token, l: Token, args: Arguments, header: nat)
    requires a.kind == TName && a.namedFormal == Some(Item("a", DpsInt, false, true, true, 3))
    requires s.kind == TString && s.val == "" && s.namedFormal == Some(Item("s", DpsString, false, true, true, 8))
    requires l.kind == TString && l.val == "x" && l.namedFormal == None && a.val == ""
    ensures var c := Compiled([a], [s], [l], 24, 1, true, header, false);
            && Valid(c) && Constant(c.arrays) && Constant(c.strings) && Static(c, [24], [49], [48], 57 + header)
            && StringPosition(c, args, 0) == header + 48 && LiteralsPosition(c, args) == header + 56
            && !Agrees(c, args, [24], [49], [48], 57 + header)
  {
    var c := Compiled([a], [s], [l], 24, 1, true, header, false);
    assert l.val[1..] == "" && WrapStrings.Encoded("") && WrapStrings.Encoded(l.val);
    var none: seq<Token> := [];
    assert [l][1..] == none && [a][..0] == none && [s][..0] == none;
    assert WrapStrings.Chars("") == [] && |CharsOf(l)| == 1;
    var f := Field(0, l);
    assert Place([], map["x" := f], 1, 1) == Store([], [], 1);
    assert Place([l], map[], 0, 0).end == 1;
    assert ArraysSize(none) == 0 && StringsSize(none, false) == 0;
    assert ArraysSize([a]) == ArraysSize(none) + 24 && StringsSize([s], false) == StringsSize(none, false) + 8;
    ConstantArrays([a], args);
    ConstantStrings([s], false, args);
    StaticAgreesIff(c, args, [24], [49], [48], 57 + header);
  }

  // ----- a whole call -----

  ghost function CompiledOf(w: Wrap, o: Options, size: nat, header: nat): Compiled
    reads w
  {
    Compiled(w.namedInputArrays, w.namedInputStrings, w.literalStrings, size, w.stringBytes, w.twoStatics, header, o.pad)
  }

  lemma {:induction false} NothingVaries(all: seq<Node>, n: nat, u: Use, o: Options)
    requires n <= |all| && ValidTokens(all, o) && !AnyVaries(all, n) && (u == NamedArray || u == NamedString)
    ensures Constant(Gather(all, n, u, o))
  {
    if n > 0 { NothingVaries(all, n - 1, u, o); }
  }

  lemma {:induction false} ArraysAreSubscripted(all: seq<Node>, n: nat, o: Options)
    requires n <= |all| && ValidTokens(all, o)
    ensures forall i :: 0 <= i < |Gather(all, n, NamedArray, o)| ==>
              Gather(all, n, NamedArray, o)[i].namedFormal.Some? && Gather(all, n, NamedArray, o)[i].namedFormal.value.subscripted
  {
    if n > 0 { ArraysAreSubscripted(all, n - 1, o); }
  }

  /** What a call of the wrap puts into the objects and what it writes, after BuildTypesAndAssignAddresses: the bytes
      are where the objects say - always when the wrap is writable, and otherwise just when StaticAgreesIff allows it. */
  method CallWrap(w: Wrap, o: Options, size: nat, sz: nat, header: nat, args: Arguments, ghost all: seq<Node>)
      returns (writes: seq<Write>, arrays: seq<int>, strings: seq<int>, literals: seq<int>, nBytes: int)
    requires Distinct(all) && ValidTokens(all, o) && w.Gathered(all, |all|, o) && size == DPS_BINOBJ_SIZE * |all| && sz == TotalSize(all, o)
    requires Formals(w.namedInputArrays) && Formals(w.namedInputStrings) && AllValid(w.literalStrings) && w.DataPlaced(size, o)
    requires w.stringBytes == Place(w.literalStrings, map[], 0, 0).end
    requires w.twoStatics <==> w.namedInputArrays != [] && w.literalStrings != []
    requires w.writable <==> AnyVaries(all, |all|) || UserNames(all, |all|, o) > 0
    ensures var c := CompiledOf(w, o, size, header);
            && Valid(c) && Written(writes, c, args)
            && (w.writable && (c.arrays != [] || c.strings != []) ==> Agrees(c, args, arrays, strings, literals, nBytes))
            && (!w.writable || (c.arrays == [] && c.strings == []) ==>
                  (Agrees(c, args, arrays, strings, literals, nBytes) <==>
                   !c.twoStatics || c.strings == [] || (c.stringBytes == 0 && StringsSize(c.strings, c.pad) == 0)))
    ensures !w.writable ==> nBytes == sz + header
  {
    hide ArraysLength, StringsLength, Place, AllValid, Apart, ValidToken, Padded, Formals, Distinct, ValidTokens, AnyVaries, UserNames, Agrees, Written, Gather;
    ListsApart(all, o);
    ArraysAreSubscripted(all, |all|, o);
    var c := Compiled(w.namedInputArrays, w.namedInputStrings, w.literalStrings, size, w.stringBytes, w.twoStatics, header, o.pad);
    arrays := seq(|c.arrays|, i requires 0 <= i < |c.arrays| reads c.arrays => c.arrays[i].body);
    strings := seq(|c.strings|, i requires 0 <= i < |c.strings| reads c.strings => c.strings[i].body);
    literals := seq(|c.literals|, i requires 0 <= i < |c.literals| reads c.literals => c.literals[i].body);
    nBytes := sz + header;
    if w.writable && (w.namedInputArrays != [] || w.namedInputStrings != []) {
      arrays, strings, literals, nBytes := FixupOffsets(c, args, literals);
    } else {
      if !w.writable {
        NothingVaries(all, |all|, NamedArray, o);
        NothingVaries(all, |all|, NamedString, o);
      }
      StaticAgreesIff(c, args, arrays, strings, literals, nBytes);
    }
    writes := WriteObjSeq(c, args);
  }
}
