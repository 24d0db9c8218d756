/** pswrap's psw.c lays a token tree out as one table of eight-byte objects: the work list that
    BuildTypesAndAssignAddresses, CheckSize and ConstructStatics walk, and what a reader of the table finds. */
module ObjectLayout {

  const DPS_BINOBJ_SIZE := 8

  datatype Option<T> = None | Some(value: T)

  /** The token types that reach the back end. */
  datatype Type = TBoolean | TInt | TFloat | TArray | TProc | TString | THexString | TName | TLitName | TSubscripted

  /** The types of binary objects. */
  datatype ObjectType = DpsBool | DpsInt | DpsReal | DpsArray | DpsString | DpsName

  /** A formal parameter, with the object type of its C type; char formals are the strings.  Numeric strings are left out. */
  datatype Item = Item(name: string, dpsType: ObjectType, starred: bool, subscripted: bool, constant: bool, val: nat)

  /** struct TokenRec.  What the back end writes are the address, the index and the address of the body. */
  class Token {
    const kind: Type
    const val: string
    const namedFormal: Option<Item>
    var adr: int
    var tokenIndex: int
    var wellKnownName: bool
    var body: int

    constructor (kind: Type, val: string, namedFormal: Option<Item>)
      ensures this.kind == kind && this.val == val && this.namedFormal == namedFormal
    {
      this.kind, this.val, this.namedFormal := kind, val, namedFormal;
      adr, tokenIndex, wellKnownName, body := 0, 0, false, 0;
    }

    predicate Composite() {
      kind == TArray || kind == TProc
    }
  }

  /** A token with the tokens of its body; only arrays and procedures have any. */
  datatype Node = Node(token: Token, body: seq<Node>)

  // ----- the work list -----

  function Count(list: seq<Node>): nat {
    if list == [] then 0 else 1 + Count(list[0].body) + Count(list[1..])
  }

  function Pending(work: seq<Node>): nat {
    if work == [] then 0 else 1 + Count(work[0].body) + Pending(work[1..])
  }

  /** The bodies of a list are put on the work list one by one, each in front. */
  function PushAll(list: seq<Node>, work: seq<Node>): (w: seq<Node>)
    decreases |list|
  {
    if list == [] then work
    else PushAll(list[1..], if list[0].token.Composite() then [list[0]] + work else work)
  }

  lemma {:induction false} PushShrinks(list: seq<Node>, work: seq<Node>)
    ensures Pending(PushAll(list, work)) <= Count(list) + Pending(work)
    decreases |list|
  {
    if list != [] {
      var w := if list[0].token.Composite() then [list[0]] + work else work;
      assert ([list[0]] + work)[1..] == work;
      PushShrinks(list[1..], w);
    }
  }

  /** The tokens in the order of the walk: a list, then the body put on the work list last, and so on. */
  function Order(list: seq<Node>, work: seq<Node>): seq<Node>
    decreases Count(list) + Pending(work)
  {
    PushShrinks(list, work);
    var w := PushAll(list, work);
    if w == [] then list else list + Order(w[0].body, w[1..])
  }

  /** Where a body is laid: its first object, and their number. */
  datatype Extent = Extent(start: nat, count: nat)

  /** The places of all bodies still to be laid, when `list` is laid at object n. */
  ghost function Layout(list: seq<Node>, work: seq<Node>, n: nat): map<Token, Extent>
    decreases Count(list) + Pending(work)
  {
    PushShrinks(list, work);
    var w := PushAll(list, work);
    if w == [] then map[]
    else Layout(w[0].body, w[1..], n + |list|)[w[0].token := Extent(n + |list|, |w[0].body|)]
  }

  ghost predicate Distinct(all: seq<Node>) {
    forall i, j :: 0 <= i < j < |all| ==> all[i].token != all[j].token
  }

  /** The body of a node is laid whole, at lo or later. */
  ghost predicate LaidAt(all: seq<Node>, x: Node, m: map<Token, Extent>, lo: nat) {
    && x.token in m && m[x.token].count == |x.body| && lo <= m[x.token].start <= m[x.token].start + |x.body| <= |all|
    && all[m[x.token].start..m[x.token].start + |x.body|] == x.body
  }

  ghost predicate Covered(m: map<Token, Extent>, j: int) {
    exists t :: t in m && m[t].start <= j < m[t].start + m[t].count
  }

  /** The extents lie one after the other from lo to hi. */
  ghost predicate Tiled(m: map<Token, Extent>, lo: nat, hi: nat) {
    && (forall t :: t in m ==> lo <= m[t].start && m[t].start + m[t].count <= hi)
    && (forall t, u :: t in m && u in m && t != u ==> m[t].start + m[t].count <= m[u].start || m[u].start + m[u].count <= m[t].start)
    && (forall j: int :: lo <= j < hi ==> Covered(m, j))
  }

  lemma {:induction false} PushMembers(list: seq<Node>, work: seq<Node>)
    ensures forall x :: x in PushAll(list, work) <==> x in work || (x in list && x.token.Composite())
    decreases |list|
  {
    if list != [] {
      PushMembers(list[1..], if list[0].token.Composite() then [list[0]] + work else work);
      assert list == [list[0]] + list[1..];
    }
  }

  /** The nodes on the work list are different composite nodes that the walk has come to before object n. */
  ghost predicate Fits(all: seq<Node>, n: nat, work: seq<Node>)
    requires n <= |all|
  {
    && (forall x :: x in work ==> x in all[..n] && x.token.Composite())
    && (forall i, j :: 0 <= i < j < |work| ==> work[i].token != work[j].token)
  }

  lemma {:induction false} PushFits(all: seq<Node>, n: nat, list: seq<Node>, work: seq<Node>)
    requires Distinct(all) && n + |list| <= |all| && all[n..n + |list|] == list && Fits(all, n, work)
    ensures Fits(all, n + |list|, PushAll(list, work))
    decreases |list|
  {
    if list != [] {
      var x := list[0];
      assert x == all[n] && all[n + 1..n + |list|] == list[1..] && all[..n + 1] == all[..n] + [x];
      var w := if x.token.Composite() then [x] + work else work;
      forall y | y in work ensures y.token != x.token {
        var k :| 0 <= k < n && all[..n][k] == y;
        assert all[k].token != all[n].token;
      }
      PushFits(all, n + 1, list[1..], w);
    }
  }

  /** The token is that of a pending body, or of a node still to come. */
  ghost predicate InWalk(all: seq<Node>, n: nat, work: seq<Node>, t: Token) {
    (exists x :: x in work && x.token == t) || exists k :: n <= k < |all| && all[k].token == t
  }

  /** All bodies that are pending at object n, or come later, are laid from lo on, each after its owner. */
  ghost predicate Laid(all: seq<Node>, n: nat, work: seq<Node>, lo: nat, m: map<Token, Extent>) {
    && (forall x :: x in work ==> LaidAt(all, x, m, lo))
    && (forall k :: n <= k < |all| && all[k].token.Composite() ==> LaidAt(all, all[k], m, k + 1))
    && Tiled(m, lo, |all|)
    && (forall t :: t in m ==> InWalk(all, n, work, t))
  }

  /** The walk comes to every body once and lays it as one piece behind its owner; the pieces fill the table. */
  lemma {:induction false} LayoutOk(all: seq<Node>, list: seq<Node>, work: seq<Node>, n: nat)
    requires Distinct(all) && n <= |all| && all[n..] == Order(list, work) && Fits(all, n, work)
    ensures Laid(all, n, work, n + |list|, Layout(list, work, n))
    decreases Count(list) + Pending(work)
  {
    hide Order, PushAll, Distinct, Laid, Fits, Count, Pending;
    OrderStarts(all, list, work, n);
    PushShrinks(list, work);
    PendingSplit(PushAll(list, work));
    WorkAfter(all, list, work, n);
    var w := PushAll(list, work);
    var n1 := n + |list|;
    if w != [] {
      OrderStarts(all, w[0].body, w[1..], n1);
      FitsRest(all, n1, w);
      LayoutOk(all, w[0].body, w[1..], n1);
      LayoutStep(all, n, work, n1, w, Layout(w[0].body, w[1..], n1));
    } else {
      LaidNothing(all, n, work);
    }
  }

  lemma {:induction false} PendingSplit(w: seq<Node>)
    ensures w != [] ==> Pending(w) == 1 + Count(w[0].body) + Pending(w[1..])
  {
  }

  lemma {:induction false} FitsRest(all: seq<Node>, n: nat, w: seq<Node>)
    requires n <= |all| && w != [] && Fits(all, n, w)
    ensures Fits(all, n, w[1..])
  {
    assert forall x :: x in w[1..] ==> x in w;
  }

  lemma {:induction false} LaidNothing(all: seq<Node>, n: nat, work: seq<Node>)
    requires n <= |all| && forall x :: x !in work
    requires forall k :: n <= k < |all| ==> !all[k].token.Composite()
    ensures Laid(all, n, work, |all|, map[])
  {
  }

  /** What is on the work list when `list` has been walked. */
  lemma {:induction false} WorkAfter(all: seq<Node>, list: seq<Node>, work: seq<Node>, n: nat)
    requires Distinct(all) && n + |list| <= |all| && all[n..n + |list|] == list && Fits(all, n, work)
    ensures var w, n1 := PushAll(list, work), n + |list|;
            && Fits(all, n1, w)
            && (forall x :: x in work ==> x in w)
            && (forall k :: n <= k < n1 && all[k].token.Composite() ==> all[k] in w)
            && (forall x :: x in w ==> x in work || x in all[n..n1])
  {
    PushMembers(list, work);
    PushFits(all, n, list, work);
    hide PushAll, Fits, Distinct;
    forall k | n <= k < n + |list| ensures all[k] in list { assert all[n..n + |list|][k - n] == all[k]; }
  }

  lemma {:induction false} OrderStarts(all: seq<Node>, list: seq<Node>, work: seq<Node>, n: nat)
    requires n <= |all| && all[n..] == Order(list, work)
    ensures n + |list| <= |all| && all[n..n + |list|] == list
    ensures var w := PushAll(list, work);
            if w == [] then n + |list| == |all| else all[n + |list|..] == Order(w[0].body, w[1..])
  {
    assert all[n..n + |list|] == all[n..][..|list|];
    assert all[n + |list|..] == all[n..][|list|..];
  }

  lemma {:induction false} LayoutStep(all: seq<Node>, n: nat, work: seq<Node>, n1: nat, w: seq<Node>, inner: map<Token, Extent>)
    requires Distinct(all) && n <= n1 <= |all| && w != [] && Fits(all, n1, w)
    requires forall x :: x in work ==> x in w
    requires forall k :: n <= k < n1 && all[k].token.Composite() ==> all[k] in w
    requires forall x :: x in w ==> x in work || x in all[n..n1]
    requires n1 + |w[0].body| <= |all| && all[n1..n1 + |w[0].body|] == w[0].body
    requires Laid(all, n1, w[1..], n1 + |w[0].body|, inner)
    ensures Laid(all, n, work, n1, inner[w[0].token := Extent(n1, |w[0].body|)])
  {
    var t0 := w[0].token;
    var m := inner[t0 := Extent(n1, |w[0].body|)];
    hide Distinct, Tiled, Fits, InWalk, LaidAt;
    assert w == [w[0]] + w[1..];
    NotYetLaid(all, n1, w, inner);
    forall x | x in w ensures LaidAt(all, x, m, n1) {
      if x == w[0] {
        LaidNow(all, x, n1, inner);
      } else {
        assert x in w[1..];
        LaidStill(all, x, n1 + |w[0].body|, n1, inner, t0, Extent(n1, |w[0].body|));
      }
    }
    TiledStep(inner, t0, n1, |w[0].body|, |all|);
    forall t | t in m ensures InWalk(all, n, work, t) {
      if t == t0 { FromWork(all, n, work, n1, w[0]); } else { FromInner(all, n, work, n1, w, t); }
    }
    forall k | n <= k < |all| && all[k].token.Composite() ensures LaidAt(all, all[k], m, k + 1) {
      if k < n1 { LaidEarlier(all, all[k], m, n1, k + 1); } else { LaidStill(all, all[k], k + 1, k + 1, inner, t0, Extent(n1, |w[0].body|)); }
    }
  }

  lemma {:induction false} LaidNow(all: seq<Node>, x: Node, n: nat, m: map<Token, Extent>)
    requires n + |x.body| <= |all| && all[n..n + |x.body|] == x.body
    ensures LaidAt(all, x, m[x.token := Extent(n, |x.body|)], n)
  {
  }

  lemma {:induction false} LaidStill(all: seq<Node>, x: Node, lo: nat, lo1: nat, m: map<Token, Extent>, t: Token, e: Extent)
    requires LaidAt(all, x, m, lo) && lo1 <= lo && x.token != t
    ensures LaidAt(all, x, m[t := e], lo1)
  {
  }

  lemma {:induction false} LaidEarlier(all: seq<Node>, x: Node, m: map<Token, Extent>, lo: nat, lo1: nat)
    requires LaidAt(all, x, m, lo) && lo1 <= lo
    ensures LaidAt(all, x, m, lo1)
  {
  }

  lemma {:induction false} NotYetLaid(all: seq<Node>, n1: nat, w: seq<Node>, inner: map<Token, Extent>)
    requires Distinct(all) && n1 <= |all| && w != [] && Fits(all, n1, w)
    requires forall t :: t in inner ==> InWalk(all, n1, w[1..], t)
    ensures w[0].token !in inner
    ensures forall k :: n1 <= k < |all| ==> all[k].token != w[0].token
    ensures forall x :: x in w && x.token == w[0].token ==> x == w[0]
  {
    assert w[0] in w;
    var k0 :| 0 <= k0 < n1 && all[..n1][k0] == w[0];
    assert all[k0] == w[0];
    assert !InWalk(all, n1, w[1..], w[0].token);
  }

  lemma {:induction false} TiledStep(inner: map<Token, Extent>, t0: Token, lo: nat, count: nat, hi: nat)
    requires Tiled(inner, lo + count, hi) && t0 !in inner && lo + count <= hi
    ensures Tiled(inner[t0 := Extent(lo, count)], lo, hi)
  {
    var m := inner[t0 := Extent(lo, count)];
    forall j: int | lo <= j < hi ensures Covered(m, j) {
      if j < lo + count {
        assert t0 in m && m[t0].start <= j < m[t0].start + m[t0].count;
      } else {
        assert Covered(inner, j);
        var t: Token :| t in inner && inner[t].start <= j < inner[t].start + inner[t].count;
        assert t in m && m[t].start <= j < m[t].start + m[t].count;
      }
    }
  }

  lemma {:induction false} FromWork(all: seq<Node>, n: nat, work: seq<Node>, n1: nat, x: Node)
    requires n <= n1 <= |all| && (x in work || x in all[n..n1])
    ensures InWalk(all, n, work, x.token)
  {
    if x !in work {
      var k :| 0 <= k < n1 - n && all[n..n1][k] == x;
      assert all[n + k] == x;
    }
  }

  lemma {:induction false} FromInner(all: seq<Node>, n: nat, work: seq<Node>, n1: nat, w: seq<Node>, t: Token)
    requires n <= n1 <= |all| && w != [] && InWalk(all, n1, w[1..], t)
    requires forall x :: x in w ==> x in work || x in all[n..n1]
    ensures InWalk(all, n, work, t)
  {
    if x :| x in w[1..] && x.token == t {
      assert x in w;
      FromWork(all, n, work, n1, x);
    } else {
      var k :| n1 <= k < |all| && all[k].token == t;
    }
  }

  // ----- reading the table -----

  const DPSSYSNAME := 0xFFFF

  datatype Value = Offset(offset: int) | Text(text: string)

  /** One binary object; `param` marks those whose value comes from a parameter of the wrap. */
  datatype Object = Object(exec: bool, dpsType: ObjectType, length: int, value: Value, param: bool)

  datatype Tree = Leaf(object: Object) | Composite(exec: bool, children: seq<Tree>)

  /** The objects of the table that a reader finds from object `at` on, following every array to its elements. */
  function Decode(objects: seq<Object>, at: nat, count: nat): seq<Tree>
    requires at + count <= |objects|
    decreases |objects| - at, 1
  {
    if count == 0 then [] else [DecodeOne(objects, at)] + Decode(objects, at + 1, count - 1)
  }

  function DecodeOne(objects: seq<Object>, at: nat): Tree
    requires at < |objects|
    decreases |objects| - at, 0
  {
    var o := objects[at];
    if o.dpsType == DpsArray && !o.param && o.length >= 0 && o.value.Offset? && o.value.offset % DPS_BINOBJ_SIZE == 0
       && at < o.value.offset / DPS_BINOBJ_SIZE && o.value.offset / DPS_BINOBJ_SIZE + o.length <= |objects|
    then Composite(o.exec, Decode(objects, o.value.offset / DPS_BINOBJ_SIZE, o.length))
    else Leaf(o)
  }

  /** The token tree, with the object of every token that has no body. */
  function Shape(list: seq<Node>, leaf: map<Token, Object>): seq<Tree> {
    if list == [] then [] else [ShapeOne(list[0], leaf)] + Shape(list[1..], leaf)
  }

  function ShapeOne(x: Node, leaf: map<Token, Object>): Tree {
    if x.token.Composite() || x.token !in leaf then Composite(x.token.kind == TProc, Shape(x.body, leaf))
    else Leaf(leaf[x.token])
  }

  /** The k-th object is that of the k-th token of the walk: an array or procedure gives the number of its elements and
      the byte where they were laid. */
  ghost predicate Tabled(objects: seq<Object>, all: seq<Node>, m: map<Token, Extent>, leaf: map<Token, Object>) {
    && |objects| == |all|
    && forall k :: 0 <= k < |all| ==>
         if all[k].token.Composite() then
           LaidAt(all, all[k], m, k + 1)
           && objects[k] == Object(all[k].token.kind == TProc, DpsArray, |all[k].body|, Offset(DPS_BINOBJ_SIZE * m[all[k].token].start), false)
         else all[k].token in leaf && objects[k] == leaf[all[k].token] && (objects[k].dpsType == DpsArray ==> objects[k].param)
  }

  lemma {:induction false} DecodeShape(objects: seq<Object>, all: seq<Node>, m: map<Token, Extent>, leaf: map<Token, Object>, at: nat, count: nat)
    requires Tabled(objects, all, m, leaf) && at + count <= |all|
    ensures Decode(objects, at, count) == Shape(all[at..at + count], leaf)
    decreases |all| - at, 1
  {
    if count > 0 {
      DecodeShapeOne(objects, all, m, leaf, at);
      DecodeShape(objects, all, m, leaf, at + 1, count - 1);
      assert all[at..at + count] == [all[at]] + all[at + 1..at + 1 + (count - 1)];
    }
  }

  lemma {:induction false} DecodeShapeOne(objects: seq<Object>, all: seq<Node>, m: map<Token, Extent>, leaf: map<Token, Object>, at: nat)
    requires Tabled(objects, all, m, leaf) && at < |all|
    ensures DecodeOne(objects, at) == ShapeOne(all[at], leaf)
    decreases |all| - at, 0
  {
    if all[at].token.Composite() {
      var e := m[all[at].token];
      assert LaidAt(all, all[at], m, at + 1) && DPS_BINOBJ_SIZE * e.start / DPS_BINOBJ_SIZE == e.start;
      DecodeShape(objects, all, m, leaf, e.start, |all[at].body|);
    }
  }
}
