/** How pswrap's psw.c stores string literals: once for each spelling, as far as its dictionary goes. */
module StringSharing {
  import opened ObjectLayout
  import opened PswDict
  import opened WrapStrings

  const MAXSTRINGS := 256

  /** The text of a literal that can be stored.  The scanner leaves strings and hexadecimal strings so, and names without
      a backslash; a literal name may have one. */
  predicate ValidLiteral(t: Token) {
    if t.kind == THexString then Hex(t.val) else Encoded(t.val)
  }

  /** The characters that are printed for a literal. */
  function CharsOf(t: Token): seq<int>
    requires ValidLiteral(t)
  {
    if t.kind == THexString then HexChars(t.val) else Chars(t.val)
  }

  predicate AllValid(list: seq<Token>) {
    forall i :: 0 <= i < |list| ==> ValidLiteral(list[i])
  }

  // ----- where the characters go -----

  datatype Field = Field(offset: nat, token: Token)

  /** The field that every literal points at, the literals whose characters are stored, and the end of them. */
  datatype Store = Store(fields: seq<Field>, stored: seq<Token>, end: nat)

  /** Places the literals of a list from `next` on.  `d` has the spellings entered so far; no more than MAXSTRINGS + 1
      are ever entered. */
  function Place(list: seq<Token>, d: map<string, Field>, count: nat, next: nat): (r: Store)
    requires AllValid(list)
    ensures |r.fields| == |list| && AllValid(r.stored) && r.end >= next
  {
    if list == [] then Store([], [], next) else
    var t := list[0];
    if t.val in d then
      var r := Place(list[1..], d, count, next);
      Store([d[t.val]] + r.fields, r.stored, r.end)
    else
      var f := Field(next, t);
      var r := if count <= MAXSTRINGS then Place(list[1..], d[t.val := f], count + 1, next + |CharsOf(t)|)
               else Place(list[1..], d, count, next + |CharsOf(t)|);
      Store([f] + r.fields, [t] + r.stored, r.end)
  }

  /** The stored bytes, one literal after the other. */
  function Bytes(stored: seq<Token>): seq<int>
    requires AllValid(stored)
  {
    if stored == [] then [] else CharsOf(stored[0]) + Bytes(stored[1..])
  }

  /** The field holds the characters of its token. */
  predicate Holds(bytes: seq<int>, f: Field) {
    ValidLiteral(f.token) && f.offset + |CharsOf(f.token)| <= |bytes|
    && bytes[f.offset..f.offset + |CharsOf(f.token)|] == CharsOf(f.token)
  }

  lemma {:induction false} HoldsMore(bytes: seq<int>, more: seq<int>, f: Field)
    requires Holds(bytes, f)
    ensures Holds(bytes + more, f)
  {
    assert (bytes + more)[f.offset..f.offset + |CharsOf(f.token)|] == bytes[f.offset..f.offset + |CharsOf(f.token)|];
  }

  /** The fields hold the stored characters, each with the spelling of its literal. */
  predicate Sound(list: seq<Token>, r: Store, before: seq<int>)
    requires AllValid(r.stored) && |r.fields| == |list|
  {
    && r.end == |before| + |Bytes(r.stored)|
    && forall k :: 0 <= k < |list| ==> r.fields[k].token.val == list[k].val && Holds(before + Bytes(r.stored), r.fields[k])
  }

  predicate Entered(d: map<string, Field>, bytes: seq<int>) {
    forall s :: s in d ==> d[s].token.val == s && Holds(bytes, d[s])
  }

  /** Every literal points at a field of its own spelling that holds the characters stored there. */
  lemma {:induction false} PlaceSound(list: seq<Token>, d: map<string, Field>, count: nat, next: nat, before: seq<int>)
    requires AllValid(list) && |before| == next && Entered(d, before)
    ensures Sound(list, Place(list, d, count, next), before)
    decreases |list|
  {
    hide Sound, Entered, Holds, Bytes, CharsOf, ValidLiteral;
    if list == [] {
      SoundNothing(before);
    } else if list[0].val in d {
      IsEntered(d, before, list[0].val);
      PlaceSound(list[1..], d, count, next, before);
      SoundShared(list, d[list[0].val], Place(list[1..], d, count, next), before);
    } else {
      var f := Field(next, list[0]);
      var d1, count1 := if count <= MAXSTRINGS then d[list[0].val := f] else d, if count <= MAXSTRINGS then count + 1 else count;
      EnterNew(d, before, list[0], f);
      var before1 := before + CharsOf(list[0]);
      PlaceSound(list[1..], d1, count1, |before1|, before1);
      SoundNew(list, Place(list[1..], d1, count1, |before1|), before);
    }
  }

  lemma {:induction false} SoundNothing(before: seq<int>)
    ensures Sound([], Store([], [], |before|), before)
  {
  }

  lemma {:induction false} IsEntered(d: map<string, Field>, before: seq<int>, s: string)
    requires Entered(d, before) && s in d
    ensures d[s].token.val == s && Holds(before, d[s])
  {
  }

  lemma {:induction false} SoundShared(list: seq<Token>, f: Field, r: Store, before: seq<int>)
    requires list != [] && AllValid(r.stored) && |r.fields| == |list| - 1 && Sound(list[1..], r, before)
    requires f.token.val == list[0].val && Holds(before, f)
    ensures Sound(list, Store([f] + r.fields, r.stored, r.end), before)
  {
    HoldsMore(before, Bytes(r.stored), f);
    hide Holds, Bytes;
  }

  lemma {:induction false} EnterNew(d: map<string, Field>, before: seq<int>, t: Token, f: Field)
    requires Entered(d, before) && ValidLiteral(t) && f == Field(|before|, t)
    ensures Holds(before + CharsOf(t), f) && Entered(d, before + CharsOf(t)) && Entered(d[t.val := f], before + CharsOf(t))
  {
    forall s | s in d ensures Holds(before + CharsOf(t), d[s]) { HoldsMore(before, CharsOf(t), d[s]); }
  }

  lemma {:induction false} SoundNew(list: seq<Token>, r: Store, before: seq<int>)
    requires list != [] && AllValid(list) && AllValid(r.stored) && |r.fields| == |list| - 1
    requires Sound(list[1..], r, before + CharsOf(list[0]))
    ensures Sound(list, Store([Field(|before|, list[0])] + r.fields, [list[0]] + r.stored, r.end), before)
  {
    hide Holds, Bytes, CharsOf, ValidLiteral;
    var t := list[0];
    BytesCons(t, r.stored);
    assert (before + CharsOf(t)) + Bytes(r.stored) == before + Bytes([t] + r.stored);
    HoldsNow(before, t);
    HoldsMore(before + CharsOf(t), Bytes(r.stored), Field(|before|, t));
  }

  lemma {:induction false} BytesCons(t: Token, stored: seq<Token>)
    requires ValidLiteral(t) && AllValid(stored)
    ensures AllValid([t] + stored) && Bytes([t] + stored) == CharsOf(t) + Bytes(stored)
  {
    assert ([t] + stored)[1..] == stored;
  }

  lemma {:induction false} HoldsNow(before: seq<int>, t: Token)
    requires ValidLiteral(t)
    ensures Holds(before + CharsOf(t), Field(|before|, t))
  {
  }

  // ----- what sharing by spelling does -----

  lemma {:induction false} HexIsPlain(s: string)
    requires Hex(s) && Encoded(s)
    ensures |Chars(s)| == |s| && (s != "" ==> Chars(s)[0] >= 48)
  {
    if s != "" {
      assert Digit(s[0]) >= 0 && s[0] != '\\';
      HexIsPlain(s[1..]);
    }
  }

  /** A hexadecimal string and another literal of the same spelling have the same characters only if they have none. */
  lemma {:induction false} SameSpelling(t: Token, u: Token)
    requires ValidLiteral(t) && ValidLiteral(u) && t.val == u.val
    ensures CharsOf(t) == CharsOf(u) <==> (t.val == "" || (t.kind == THexString <==> u.kind == THexString))
  {
    if t.val != "" && (t.kind == THexString <==> u.kind != THexString) {
      HexLengths(t.val);
      HexIsPlain(t.val);
      if |t.val| == 1 { assert HexChars(t.val)[0] == Digit(t.val[0]) < 48; }
    }
  }

  /** Every literal of the wrap points at its own characters. */
  predicate AllRight(list: seq<Token>)
    requires AllValid(list)
  {
    var r := Place(list, map[], 0, 0);
    forall k :: 0 <= k < |list| ==>
      ValidLiteral(r.fields[k].token) && CharsOf(r.fields[k].token) == CharsOf(list[k]) && Holds(Bytes(r.stored), r.fields[k])
  }

  /** Two literals of one spelling with characters, one of them hexadecimal. */
  predicate Clash(list: seq<Token>, i: nat, j: nat)
    requires i < |list| && j < |list|
  {
    list[i].val == list[j].val != "" && (list[i].kind == THexString <==> list[j].kind != THexString)
  }

  lemma {:induction false} PlaceAll(list: seq<Token>)
    requires AllValid(list)
    ensures var r := Place(list, map[], 0, 0);
            r.end == |Bytes(r.stored)|
            && forall k :: 0 <= k < |list| ==>
                 r.fields[k].token.val == list[k].val && ValidLiteral(r.fields[k].token) && Holds(Bytes(r.stored), r.fields[k])
  {
    PlaceSound(list, map[], 0, 0, []);
    assert [] + Bytes(Place(list, map[], 0, 0).stored) == Bytes(Place(list, map[], 0, 0).stored);
  }

  function Spellings(list: seq<Token>): set<string> {
    set i | 0 <= i < |list| :: list[i].val
  }

  lemma {:induction false} SpellingsMore(known: set<string>, list: seq<Token>, i: nat)
    requires 0 < i <= |list|
    ensures known + Spellings(list[..i]) == known + {list[0].val} + Spellings(list[1..][..i - 1])
  {
    assert list[..i] == [list[0]] + list[1..][..i - 1];
    forall s | s in Spellings(list[1..][..i - 1]) ensures s in Spellings(list[..i]) {
      var m :| 0 <= m < i - 1 && list[1..][m].val == s;
      assert list[..i][m + 1].val == s;
    }
    assert list[..i][0] == list[0];
    forall s | s in Spellings(list[..i]) && s != list[0].val ensures s in Spellings(list[1..][..i - 1]) {
      var m :| 0 <= m < i && list[..i][m].val == s;
      assert list[1..][..i - 1][m - 1].val == s;
    }
  }

  /** The dictionary behind the first literal. */
  function Entering(list: seq<Token>, d: map<string, Field>, count: nat, next: nat): map<string, Field>
    requires list != []
  {
    if list[0].val in d || count > MAXSTRINGS then d else d[list[0].val := Field(next, list[0])]
  }

  function Counted(list: seq<Token>, d: map<string, Field>, count: nat): nat
    requires list != []
  {
    if list[0].val in d || count > MAXSTRINGS then count else count + 1
  }

  lemma {:induction false} CountKeys(list: seq<Token>, d: map<string, Field>, count: nat, next: nat)
    requires list != [] && |d.Keys| == count <= MAXSTRINGS
    ensures |Entering(list, d, count, next).Keys| == Counted(list, d, count) <= MAXSTRINGS + 1
    ensures Entering(list, d, count, next).Keys == d.Keys + {list[0].val}
  {
    var d1 := Entering(list, d, count, next);
    assert d1.Keys == d.Keys + {list[0].val};
  }

  /** The fields behind the first. */
  lemma {:induction false} NextField(list: seq<Token>, d: map<string, Field>, count: nat, next: nat, k: nat) returns (next1: nat)
    requires AllValid(list) && 0 < k < |list|
    ensures Place(list, d, count, next).fields[k] == Place(list[1..], Entering(list, d, count, next), Counted(list, d, count), next1).fields[k - 1]
  {
    next1 := if list[0].val in d then next else next + |CharsOf(list[0])|;
    hide CharsOf, ValidLiteral;
  }

  /** A spelling that was entered keeps its field. */
  lemma {:induction false} OneField(list: seq<Token>, d: map<string, Field>, count: nat, next: nat, k: nat, f: Field)
    requires AllValid(list) && k < |list| && list[k].val in d && d[list[k].val] == f
    ensures Place(list, d, count, next).fields[k] == f
    decreases |list|
  {
    if k > 0 {
      var next1 := NextField(list, d, count, next, k);
      OneField(list[1..], Entering(list, d, count, next), Counted(list, d, count), next1, k - 1, f);
    }
  }

  /** With a full dictionary a spelling that is not in it gets a field of its own every time. */
  lemma {:induction false} OwnField(list: seq<Token>, d: map<string, Field>, count: nat, next: nat, k: nat)
    requires AllValid(list) && k < |list| && list[k].val !in d && count > MAXSTRINGS
    ensures Place(list, d, count, next).fields[k].token == list[k]
    decreases |list|
  {
    if k > 0 {
      var next1 := NextField(list, d, count, next, k);
      OwnField(list[1..], d, count, next1, k - 1);
    }
  }

  lemma {:induction false} FirstField(list: seq<Token>, d: map<string, Field>, count: nat, next: nat, k: nat)
    requires AllValid(list) && k < |list| && list[0].val == list[k].val && list[0].val !in d && count <= MAXSTRINGS
    ensures Place(list, d, count, next).fields[k].token == list[0]
  {
    if k > 0 {
      var next1 := NextField(list, d, count, next, k);
      OneField(list[1..], Entering(list, d, count, next), count + 1, next1, k - 1, Field(next, list[0]));
    }
  }

  /** The i-th literal is the first one with the spelling of the k-th. */
  predicate FirstAt(list: seq<Token>, i: nat, k: nat) {
    i <= k < |list| && list[i].val == list[k].val && forall m :: 0 <= m < i ==> list[m].val != list[k].val
  }

  /** The literal whose field the k-th shares, when the spellings `known` are in the dictionary at the start. */
  function Shared(list: seq<Token>, known: set<string>, i: nat, k: nat): Token
    requires i <= k < |list|
  {
    if |known + Spellings(list[..i])| <= MAXSTRINGS then list[i] else list[k]
  }

  lemma {:induction false} SharedNext(list: seq<Token>, known: set<string>, i: nat, k: nat)
    requires FirstAt(list, i, k) && i > 0
    ensures FirstAt(list[1..], i - 1, k - 1) && list[0].val != list[k].val
    ensures Shared(list[1..], known + {list[0].val}, i - 1, k - 1) == Shared(list, known, i, k)
  {
    SpellingsMore(known, list, i);
    hide Spellings;
  }

  /** A literal points at the field of the first literal of its spelling if the dictionary had room for that one, and
      else at a field of its own. */
  lemma {:induction false} FieldAt(list: seq<Token>, d: map<string, Field>, count: nat, next: nat, i: nat, k: nat)
    requires AllValid(list) && FirstAt(list, i, k) && list[k].val !in d && |d.Keys| == count <= MAXSTRINGS + 1
    ensures Place(list, d, count, next).fields[k].token == Shared(list, d.Keys, i, k)
    decreases |list|, 1
  {
    hide Place, CharsOf, ValidLiteral, Spellings, Entering, Counted;
    if count > MAXSTRINGS {
      OwnField(list, d, count, next, k);
      Larger(d.Keys, d.Keys + Spellings(list[..i]));
    } else if i == 0 {
      NoSpellings();
      assert d.Keys + {} == d.Keys && list[..0] == [];
      FirstField(list, d, count, next, k);
    } else {
      FieldAtLater(list, d, count, next, i, k);
    }
  }

  lemma {:induction false} FieldAtLater(list: seq<Token>, d: map<string, Field>, count: nat, next: nat, i: nat, k: nat)
    requires i <= k < |list| && AllValid(list) && FirstAt(list, i, k) && i > 0 && list[k].val !in d && |d.Keys| == count <= MAXSTRINGS
    ensures Place(list, d, count, next).fields[k].token == Shared(list, d.Keys, i, k)
    decreases |list|, 0
  {
    hide *;
    AllValidRest(list);
    SharedNext(list, d.Keys, i, k);
    var next1 := NextField(list, d, count, next, k);
    CountKeys(list, d, count, next);
    EnteringOther(list, d, count, next, k);
    FieldAt(list[1..], Entering(list, d, count, next), Counted(list, d, count), next1, i - 1, k - 1);
  }

  lemma {:induction false} AllValidRest(list: seq<Token>)
    requires AllValid(list) && list != []
    ensures AllValid(list[1..])
  {
    hide ValidLiteral;
  }

  lemma {:induction false} EnteringOther(list: seq<Token>, d: map<string, Field>, count: nat, next: nat, k: nat)
    requires k < |list| && list[0].val != list[k].val && list[k].val !in d
    ensures list[k].val !in Entering(list, d, count, next)
  {
  }

  lemma {:induction false} NoSpellings()
    ensures Spellings([]) == {}
  {
  }

  lemma {:induction false} Larger<T>(a: set<T>, b: set<T>)
    requires a <= b
    ensures |a| <= |b|
  {
    if a != {} {
      var x :| x in a;
      Larger(a - {x}, b - {x});
    }
  }

  /** The first literal of a spelling. */
  function FirstOf(list: seq<Token>, k: nat): (i: nat)
    requires k < |list|
    ensures FirstAt(list, i, k)
  {
    FirstFrom(list, k, 0)
  }

  function FirstFrom(list: seq<Token>, k: nat, i: nat): (r: nat)
    requires i <= k < |list| && forall m :: 0 <= m < i ==> list[m].val != list[k].val
    ensures FirstAt(list, r, k)
    decreases k - i
  {
    if list[i].val == list[k].val then i else FirstFrom(list, k, i + 1)
  }

  /** Whether the dictionary still has room when the loop comes to the i-th literal. */
  predicate Room(list: seq<Token>, i: nat)
    requires i <= |list|
  {
    |Spellings(list[..i])| <= MAXSTRINGS
  }

  lemma {:induction false} RoomBefore(list: seq<Token>, i: nat, j: nat)
    requires i <= j <= |list| && Room(list, j)
    ensures Room(list, i)
  {
    forall s | s in Spellings(list[..i]) ensures s in Spellings(list[..j]) {
      var m :| 0 <= m < i && list[..i][m].val == s;
      assert list[..j][m].val == s;
    }
    Larger(Spellings(list[..i]), Spellings(list[..j]));
  }

  /** The literal a literal shares the field of. */
  function Owner(list: seq<Token>, k: nat): (i: nat)
    requires k < |list|
    ensures i <= k && list[i].val == list[k].val
  {
    if Room(list, FirstOf(list, k)) then FirstOf(list, k) else k
  }

  lemma {:induction false} FieldOfOwner(list: seq<Token>, k: nat)
    requires AllValid(list) && k < |list|
    ensures Place(list, map[], 0, 0).fields[k].token == list[Owner(list, k)]
  {
    var i := FirstOf(list, k);
    var none: map<string, Field> := map[];
    assert none.Keys + Spellings(list[..i]) == Spellings(list[..i]);
    FieldAt(list, none, 0, 0, i, k);
  }

  /** Every literal has its characters exactly when it does not clash with the owner of its field. */
  lemma {:induction false} RightByOwner(list: seq<Token>)
    requires AllValid(list)
    ensures AllRight(list) <==> forall k :: 0 <= k < |list| ==> !Clash(list, Owner(list, k), k)
  {
    hide Place, CharsOf, Holds, Bytes, Hex, Encoded, Owner;
    PlaceAll(list);
    var r := Place(list, map[], 0, 0);
    forall k | 0 <= k < |list| ensures CharsOf(r.fields[k].token) == CharsOf(list[k]) <==> !Clash(list, Owner(list, k), k) {
      FieldOfOwner(list, k);
      SameSpelling(r.fields[k].token, list[k]);
    }
  }

  /** Sharing is right exactly when the dictionary was full before the first literal of every clash. */
  lemma {:induction false} SharingIsRightIff(list: seq<Token>)
    requires AllValid(list)
    ensures AllRight(list) <==>
            forall i, j :: 0 <= i < j < |list| && Clash(list, i, j) ==> |Spellings(list[..i])| > MAXSTRINGS
  {
    hide AllRight;
    RightByOwner(list);
    if forall i, j :: 0 <= i < j < |list| && Clash(list, i, j) ==> |Spellings(list[..i])| > MAXSTRINGS {
      forall k | 0 <= k < |list| ensures !Clash(list, Owner(list, k), k) {
        var i := FirstOf(list, k);
        if i < k && Clash(list, i, k) { assert !Room(list, i); }
      }
    } else {
      var i, j :| 0 <= i < j < |list| && Clash(list, i, j) && |Spellings(list[..i])| <= MAXSTRINGS;
      var m := FirstOf(list, i);
      SameFirst(list, i, j);
      RoomBefore(list, m, i);
      assert Clash(list, m, i) || Clash(list, m, j);
      assert Clash(list, Owner(list, i), i) || Clash(list, Owner(list, j), j);
    }
  }

  lemma {:induction false} SameFirst(list: seq<Token>, i: nat, j: nat)
    requires i < j < |list| && list[i].val == list[j].val
    ensures FirstOf(list, i) == FirstOf(list, j)
  {
  }

  /** (41) and <41>: the second gets the characters of the first. */
  lemma {:induction false} ClashAtAPair(t: Token, u: Token)
    requires t.kind == TString && u.kind == THexString && t.val == u.val == "41"
    ensures ValidLiteral(t) && ValidLiteral(u) && CharsOf(t) == [52, 49] && CharsOf(u) == [65]
    ensures AllValid([t, u]) && Place([t, u], map[], 0, 0).fields == [Field(0, t), Field(0, t)] && !AllRight([t, u])
  {
    var s := "41";
    assert s[1..] == "1" && s[2..] == "" && s[1..][1..] == "";
    assert Encoded("1") && Encoded(s) && Chars("1") == [49];
    assert Hex("");
    var list := [t, u];
    assert list[1..] == [u] && [u][1..] == [];
    assert Clash(list, 0, 1);
    NoSpellings();
    assert list[..0] == [];
    SharingIsRightIff(list);
  }

  // ----- the loops -----

  /** A loop over the literals has come to the i-th: d, count and next are its dictionary, its entries and its place. */
  ghost predicate Going(list: seq<Token>, i: nat, d: map<string, Field>, count: nat, next: nat, done: Store) {
    && AllValid(list) && i <= |list| && |done.fields| == i && done.end == next && AllValid(done.stored)
    && var p := Place(list[i..], d, count, next);
       Place(list, map[], 0, 0) == Store(done.fields + p.fields, done.stored + p.stored, p.end)
  }

  lemma {:induction false} GoingStarts(list: seq<Token>)
    requires AllValid(list)
    ensures Going(list, 0, map[], 0, 0, Store([], [], 0))
  {
    assert list[0..] == list;
    var p := Place(list, map[], 0, 0);
    assert [] + p.fields == p.fields && [] + p.stored == p.stored;
  }

  lemma {:induction false} GoingShared(list: seq<Token>, i: nat, d: map<string, Field>, count: nat, next: nat, done: Store)
    requires Going(list, i, d, count, next, done) && i < |list| && list[i].val in d
    ensures Going(list, i + 1, d, count, next, Store(done.fields + [d[list[i].val]], done.stored, next))
  {
    assert list[i..][1..] == list[i + 1..];
    var p := Place(list[i + 1..], d, count, next);
    assert done.fields + ([d[list[i].val]] + p.fields) == (done.fields + [d[list[i].val]]) + p.fields;
  }

  lemma {:induction false} GoingStored(list: seq<Token>, i: nat, d: map<string, Field>, count: nat, next: nat, done: Store)
    requires Going(list, i, d, count, next, done) && i < |list| && list[i].val !in d
    ensures ValidLiteral(list[i])
    ensures var f := Field(next, list[i]);
            var next1 := next + |CharsOf(list[i])|;
            var done1 := Store(done.fields + [f], done.stored + [list[i]], next1);
            if count <= MAXSTRINGS then Going(list, i + 1, d[list[i].val := f], count + 1, next1, done1)
            else Going(list, i + 1, d, count, next1, done1)
  {
    hide ValidLiteral, CharsOf, Hex, Encoded;
    assert list[i..][1..] == list[i + 1..] && list[i..][0] == list[i];
    var f := Field(next, list[i]);
    var next1 := next + |CharsOf(list[i])|;
    if count <= MAXSTRINGS {
      StoredAfter(done, f, list[i], Place(list[i + 1..], d[list[i].val := f], count + 1, next1));
    } else {
      StoredAfter(done, f, list[i], Place(list[i + 1..], d, count, next1));
    }
  }

  lemma {:induction false} StoredAfter(done: Store, f: Field, t: Token, p: Store)
    ensures Store(done.fields + ([f] + p.fields), done.stored + ([t] + p.stored), p.end)
         == Store((done.fields + [f]) + p.fields, (done.stored + [t]) + p.stored, p.end)
  {
  }

  lemma {:induction false} GoingEnds(list: seq<Token>, d: map<string, Field>, count: nat, next: nat, done: Store)
    requires Going(list, |list|, d, count, next, done)
    ensures Place(list, map[], 0, 0) == done
  {
    assert done.fields + [] == done.fields && done.stored + [] == done.stored;
  }

  /** The dictionary holds the offset of every spelling entered, counted from `base`. */
  ghost predicate Mirrors(m: map<string, int>, d: map<string, Field>, base: int) {
    m.Keys == d.Keys && forall s :: s in d ==> m[s] == base + d[s].offset
  }

  /** The length of a literal, by PSWStringLength or PSWHexStringLength. */
  method LiteralLength(t: Token) returns (ln: nat)
    requires ValidLiteral(t)
    ensures ln == |CharsOf(t)|
  {
    if t.kind == THexString {
      HexLengths(t.val);
      ln := HexStringLength(t.val);
    } else {
      var len := StringLength(t.val);
      ln := len.value;
    }
  }

  /** One round of the loop over the literals: where the characters of t are, and whether they are stored now. */
  method LookOrEnter(dict: Dict, t: Token, next: nat, base: nat, strCount: nat, ghost d: map<string, Field>)
      returns (offset: int, isNew: bool, strCount': nat)
    requires dict.Valid() && Mirrors(dict.Contents, d, base) && ValidLiteral(t)
    modifies dict, dict.entries, dict.Cells()
    ensures dict.Valid() && fresh(dict.Cells() - old(dict.Cells()))
    ensures isNew <==> t.val !in d
    ensures offset == base + if isNew then next else d[t.val].offset
    ensures strCount' == if isNew && strCount <= MAXSTRINGS then strCount + 1 else strCount
    ensures Mirrors(dict.Contents, if isNew && strCount <= MAXSTRINGS then d[t.val := Field(next, t)] else d, base)
  {
    hide Dict.Valid;
    strCount' := strCount;
    offset := dict.Lookup(t.val);
    isNew := offset == -1;
    if isNew {
      offset := base + next;
      if strCount <= MAXSTRINGS {
        var r := dict.Enter(t.val, base + next);
        strCount' := strCount + 1;
      }
    }
  }

  /** The literals of BuildTypesAndAssignAddresses: every literal gets the address of its characters. */
  method PlaceLiterals(list: seq<Token>, base: nat) returns (nextAdr: nat, stringBytes: nat, fields: nat, ghost done: Store)
    requires AllValid(list) && forall i, j :: 0 <= i < j < |list| ==> list[i] != list[j]
    modifies list`body
    ensures done == Place(list, map[], 0, 0) && stringBytes == done.end && nextAdr == base + done.end && fields == |done.stored|
    ensures forall i :: 0 <= i < |list| ==> list[i].body == base + done.fields[i].offset
  {
    hide Going, Place, Mirrors, Dict.Valid, ValidLiteral, CharsOf, AllValid;
    var wrapDict := new Dict(MAXSTRINGS);
    var strCount := 0;
    ghost var d: map<string, Field> := map[];
    nextAdr, stringBytes, fields, done := base, 0, 0, Store([], [], 0);
    GoingStarts(list);
    MirrorsNothing(base);
    var i := 0;
    while i < |list|
      invariant 0 <= i <= |list| && Going(list, i, d, strCount, stringBytes, done) && |done.fields| == i
      invariant nextAdr == base + stringBytes && fields == |done.stored|
      invariant forall j :: 0 <= j < i ==> list[j].body == base + done.fields[j].offset
      invariant wrapDict.Valid() && Mirrors(wrapDict.Contents, d, base)
      invariant fresh(wrapDict) && fresh(wrapDict.entries) && fresh(wrapDict.Cells())
    {
      var t := list[i];
      LiteralAt(list, i, d, strCount, stringBytes, done);
      var offset, isNew, strCount' := LookOrEnter(wrapDict, t, stringBytes, base, strCount, d);
      t.body := offset;
      if isNew {
        GoingStored(list, i, d, strCount, stringBytes, done);
        var ln := LiteralLength(t);
        done := Store(done.fields + [Field(stringBytes, t)], done.stored + [t], stringBytes + ln);
        if strCount <= MAXSTRINGS { d := d[t.val := Field(stringBytes, t)]; }
        nextAdr, stringBytes, fields := nextAdr + ln, stringBytes + ln, fields + 1;
      } else {
        GoingShared(list, i, d, strCount, stringBytes, done);
        done := Store(done.fields + [d[t.val]], done.stored, stringBytes);
      }
      strCount := strCount';
      i := i + 1;
    }
    GoingEnds(list, d, strCount, stringBytes, done);
    GoingEnd(list, i, d, strCount, stringBytes, done);
  }

  lemma {:induction false} MirrorsNothing(base: int)
    ensures Mirrors(map[], map[], base)
  {
  }

  lemma {:induction false} LiteralAt(list: seq<Token>, i: nat, d: map<string, Field>, count: nat, next: nat, done: Store)
    requires Going(list, i, d, count, next, done) && i < |list|
    ensures ValidLiteral(list[i])
  {
  }

  lemma {:induction false} GoingEnd(list: seq<Token>, i: nat, d: map<string, Field>, count: nat, next: nat, done: Store)
    requires Going(list, i, d, count, next, done)
    ensures done.end == next && AllValid(list)
  {
  }

  /** The look-up of the walks that do not need the place: all spellings are entered with 0. */
  method LookOrEnterZero(dict: Dict, t: Token, strCount: nat, ghost d: map<string, Field>, ghost f: Field) returns (isNew: bool, strCount': nat)
    requires dict.Valid() && Entries(dict.Contents, d) && ValidLiteral(t)
    modifies dict, dict.entries, dict.Cells()
    ensures dict.Valid() && fresh(dict.Cells() - old(dict.Cells()))
    ensures isNew <==> t.val !in d
    ensures strCount' == if isNew && strCount <= MAXSTRINGS then strCount + 1 else strCount
    ensures Entries(dict.Contents, if isNew && strCount <= MAXSTRINGS then d[t.val := f] else d)
  {
    hide Dict.Valid;
    strCount' := strCount;
    var loc := dict.Lookup(t.val);
    isNew := loc == -1;
    if isNew && strCount <= MAXSTRINGS {
      var r := dict.Enter(t.val, 0);
      strCount' := strCount + 1;
    }
  }

  ghost predicate Entries(m: map<string, int>, d: map<string, Field>) {
    m.Keys == d.Keys && forall s :: s in m ==> m[s] == 0
  }

  /** The literals of CheckSize: how many bytes they take. */
  method CheckLiterals(list: seq<Token>) returns (size: nat)
    requires AllValid(list)
    ensures size == Place(list, map[], 0, 0).end
  {
    hide Going, Place, Dict.Valid, ValidLiteral, CharsOf, AllValid, Entries;
    var wrapDict := new Dict(MAXSTRINGS);
    var strCount := 0;
    ghost var d: map<string, Field> := map[];
    ghost var done := Store([], [], 0);
    size := 0;
    GoingStarts(list);
    NoEntries();
    var i := 0;
    while i < |list|
      invariant 0 <= i <= |list| && Going(list, i, d, strCount, size, done) && |done.fields| == i
      invariant wrapDict.Valid() && Entries(wrapDict.Contents, d)
      invariant fresh(wrapDict) && fresh(wrapDict.entries) && fresh(wrapDict.Cells())
    {
      var t := list[i];
      ghost var f := Field(size, t);
      LiteralAt(list, i, d, strCount, size, done);
      var isNew, strCount' := LookOrEnterZero(wrapDict, t, strCount, d, f);
      if isNew {
        GoingStored(list, i, d, strCount, size, done);
        var ln := LiteralLength(t);
        done := Store(done.fields + [f], done.stored + [t], size + ln);
        if strCount <= MAXSTRINGS { d := d[t.val := f]; }
        size := size + ln;
      } else {
        GoingShared(list, i, d, strCount, size, done);
        done := Store(done.fields + [d[t.val]], done.stored, size);
      }
      strCount := strCount';
      i := i + 1;
    }
    GoingEnds(list, d, strCount, size, done);
    GoingEnd(list, i, d, strCount, size, done);
  }

  lemma {:induction false} NoEntries()
    ensures Entries(map[], map[])
  {
  }

  /** The initialiser printed for a literal. */
  method OutputLiteral(t: Token) returns (out: seq<string>)
    requires ValidLiteral(t)
    ensures Values(out, CharsOf(t), if t.kind == THexString then HexValue else CValue)
  {
    if t.kind == THexString {
      out := OutputHexStringChars(t.val);
    } else {
      out := OutputStringChars(t.val);
    }
  }

  /** An initialiser for each stored literal, with as many constants as the literal has characters. */
  ghost predicate Printed(printed: seq<seq<string>>, stored: seq<Token>)
    requires AllValid(stored)
  {
    && |printed| == |stored|
    && forall k :: 0 <= k < |stored| ==> Values(printed[k], CharsOf(stored[k]), if stored[k].kind == THexString then HexValue else CValue)
  }

  /** The literals of ConstructStatics: the initialisers, in the order in which the fields were declared. */
  method PrintLiterals(list: seq<Token>) returns (printed: seq<seq<string>>)
    requires AllValid(list)
    ensures Printed(printed, Place(list, map[], 0, 0).stored)
  {
    hide Going, Place, Dict.Valid, ValidLiteral, CharsOf, AllValid, Entries, Printed;
    var wrapDict := new Dict(MAXSTRINGS);
    var strCount := 0;
    ghost var d: map<string, Field> := map[];
    ghost var done := Store([], [], 0);
    printed := [];
    GoingStarts(list);
    NoEntries();
    NonePrinted();
    var i := 0;
    while i < |list|
      invariant 0 <= i <= |list| && Going(list, i, d, strCount, done.end, done) && |done.fields| == i
      invariant AllValid(done.stored) && Printed(printed, done.stored)
      invariant wrapDict.Valid() && Entries(wrapDict.Contents, d)
      invariant fresh(wrapDict) && fresh(wrapDict.entries) && fresh(wrapDict.Cells())
    {
      var t := list[i];
      ghost var f := Field(done.end, t);
      LiteralAt(list, i, d, strCount, done.end, done);
      var isNew, strCount' := LookOrEnterZero(wrapDict, t, strCount, d, f);
      if isNew {
        GoingStored(list, i, d, strCount, done.end, done);
        var out := OutputLiteral(t);
        PrintedMore(printed, done.stored, out, t);
        printed := printed + [out];
        done := Store(done.fields + [f], done.stored + [t], done.end + |CharsOf(t)|);
        if strCount <= MAXSTRINGS { d := d[t.val := f]; }
      } else {
        GoingShared(list, i, d, strCount, done.end, done);
        done := Store(done.fields + [d[t.val]], done.stored, done.end);
      }
      strCount := strCount';
      i := i + 1;
    }
    GoingEnds(list, d, strCount, done.end, done);
  }

  lemma {:induction false} NonePrinted()
    ensures AllValid([]) && Printed([], [])
  {
  }

  lemma {:induction false} PrintedMore(printed: seq<seq<string>>, stored: seq<Token>, out: seq<string>, t: Token)
    requires AllValid(stored) && Printed(printed, stored) && ValidLiteral(t)
    requires Values(out, CharsOf(t), if t.kind == THexString then HexValue else CValue)
    ensures AllValid(stored + [t]) && Printed(printed + [out], stored + [t])
  {
    hide Values, CharsOf, ValidLiteral;
  }

  /** The literals of FixupOffsets: the distance of every literal from the start of them, and their total length. */
  method FixupLiterals(list: seq<Token>) returns (offsets: seq<nat>, stringOffset: nat)
    requires AllValid(list)
    ensures var r := Place(list, map[], 0, 0);
            stringOffset == r.end && |offsets| == |list| && forall i :: 0 <= i < |list| ==> offsets[i] == r.fields[i].offset
  {
    hide Going, Place, Mirrors, Dict.Valid, ValidLiteral, CharsOf, AllValid;
    var wrapDict := new Dict(MAXSTRINGS);
    var strCount := 0;
    ghost var d: map<string, Field> := map[];
    ghost var done := Store([], [], 0);
    offsets, stringOffset := [], 0;
    GoingStarts(list);
    MirrorsNothing(0);
    var i := 0;
    while i < |list|
      invariant 0 <= i <= |list| && Going(list, i, d, strCount, stringOffset, done) && |done.fields| == i == |offsets|
      invariant forall j :: 0 <= j < i ==> offsets[j] == done.fields[j].offset
      invariant wrapDict.Valid() && Mirrors(wrapDict.Contents, d, 0)
      invariant fresh(wrapDict) && fresh(wrapDict.entries) && fresh(wrapDict.Cells())
    {
      var t := list[i];
      LiteralAt(list, i, d, strCount, stringOffset, done);
      var offset, isNew, strCount' := LookOrEnter(wrapDict, t, stringOffset, 0, strCount, d);
      offsets := offsets + [offset];
      if isNew {
        GoingStored(list, i, d, strCount, stringOffset, done);
        var ln := LiteralLength(t);
        done := Store(done.fields + [Field(stringOffset, t)], done.stored + [t], stringOffset + ln);
        if strCount <= MAXSTRINGS { d := d[t.val := Field(stringOffset, t)]; }
        stringOffset := stringOffset + ln;
      } else {
        GoingShared(list, i, d, strCount, stringOffset, done);
        done := Store(done.fields + [d[t.val]], done.stored, stringOffset);
      }
      strCount := strCount';
      i := i + 1;
    }
    GoingEnds(list, d, strCount, stringOffset, done);
    GoingEnd(list, i, d, strCount, stringOffset, done);
  }
}
