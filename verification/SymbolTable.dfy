/** The symbol tables of makedepend's parse.c: sorted arrays searched by halving, grown by tens, merged by copying. */
module SymbolTable {

  const SYMTABINC := 10

  /** struct symtab.  Tables hold pointers to these, so that merged tables share them. */
  class Symbol {
    const name: string
    var value: string

    constructor (name: string, value: string)
      ensures this.name == name && this.value == value
    {
      this.name := name;
      this.value := value;
    }
  }

  // ----- names in order -----

  /** strcmp(a, b) < 0 */
  predicate Less(a: string, b: string) {
    b != "" && (a == "" || a[0] < b[0] || (a[0] == b[0] && Less(a[1..], b[1..])))
  }

  lemma {:induction false} LessTotal(a: string, b: string)
    ensures a == b || Less(a, b) || Less(b, a)
    ensures Less(a, b) ==> a != b && !Less(b, a)
  {
    if a != "" && b != "" && a[0] == b[0] {
      LessTotal(a[1..], b[1..]);
      assert [a[0]] + a[1..] == a && [b[0]] + b[1..] == b;
    }
  }

  lemma {:induction false} LessTransitive(a: string, b: string, c: string)
    requires Less(a, b) && Less(b, c)
    ensures Less(a, c)
  {
    if a != "" && a[0] == b[0] == c[0] {
      LessTransitive(a[1..], b[1..], c[1..]);
    }
  }

  /** The inline comparison loop: walks over the common prefix. */
  method CompareNames(a: string, b: string) returns (c: int)
    ensures c == 0 <==> a == b
    ensures c < 0 <==> Less(a, b)
    ensures c > 0 <==> Less(b, a)
  {
    var i := 0;
    while i < |a| && i < |b| && a[i] == b[i]
      invariant 0 <= i <= |a| && i <= |b| && a[..i] == b[..i]
      invariant Less(a, b) == Less(a[i..], b[i..]) && Less(b, a) == Less(b[i..], a[i..])
    {
      assert a[i..][1..] == a[i + 1..] && b[i..][1..] == b[i + 1..];
      i := i + 1;
    }
    assert a == a[..i] + a[i..] && b == b[..i] + b[i..];
    LessTotal(a, b);
    if i == |a| && i == |b| { return 0; }
    c := if i == |b| || (i < |a| && a[i] > b[i]) then 1 else -1;
  }

  predicate Sorted(t: seq<Symbol>) {
    forall i, j :: 0 <= i < j < |t| ==> Less(t[i].name, t[j].name)
  }

  /** Every name of the table is below (above) s. */
  predicate AllBelow(t: seq<Symbol>, s: string) {
    forall i :: 0 <= i < |t| ==> Less(t[i].name, s)
  }

  predicate AllAbove(t: seq<Symbol>, s: string) {
    forall i :: 0 <= i < |t| ==> Less(s, t[i].name)
  }

  // ----- the map a table stands for -----

  function Names(t: seq<Symbol>): set<string> {
    set i | 0 <= i < |t| :: t[i].name
  }

  ghost predicate Represents(m: map<string, Symbol>, t: seq<Symbol>) {
    && m.Keys == Names(t)
    && forall i :: 0 <= i < |t| ==> m[t[i].name] == t[i]
  }

  /** The finite map of a sorted table. */
  ghost function AsMap(t: seq<Symbol>): (m: map<string, Symbol>)
    requires Sorted(t)
    ensures Represents(m, t)
  {
    if t == [] then map[] else
    var n := |t| - 1;
    assert Sorted(t[..n]);
    assert forall i :: 0 <= i < n ==> t[..n][i] == t[i];
    assert t[n].name !in Names(t[..n]) by { forall i | 0 <= i < n ensures t[i].name != t[n].name { LessTotal(t[i].name, t[n].name); } }
    assert Names(t) == Names(t[..n]) + {t[n].name};
    AsMap(t[..n])[t[n].name := t[n]]
  }

  lemma {:induction false} SameMap(m: map<string, Symbol>, m': map<string, Symbol>, t: seq<Symbol>)
    requires Represents(m, t) && Represents(m', t)
    ensures m == m'
  {
  }

  // ----- inserting, deleting, merging -----

  function Inserted(t: seq<Symbol>, p: nat, s: Symbol): (r: seq<Symbol>)
    requires p <= |t|
    ensures |r| == |t| + 1 && r[p] == s
    ensures forall i :: 0 <= i < p ==> r[i] == t[i]
    ensures forall i :: p < i < |r| ==> r[i] == t[i - 1]
  {
    t[..p] + [s] + t[p..]
  }

  lemma {:induction false} InsertSorted(t: seq<Symbol>, p: nat, s: Symbol)
    requires p <= |t| && Sorted(t) && AllBelow(t[..p], s.name) && AllAbove(t[p..], s.name)
    ensures Sorted(Inserted(t, p, s)) && s.name !in Names(t)
  {
    var r := Inserted(t, p, s);
    forall i | 0 <= i < p ensures Less(t[i].name, s.name) { assert t[..p][i] == t[i]; }
    forall i | p <= i < |t| ensures Less(s.name, t[i].name) { assert t[p..][i - p] == t[i]; }
    forall i | 0 <= i < |t| ensures t[i].name != s.name { LessTotal(t[i].name, s.name); }
    forall i, j | 0 <= i < j < |r| ensures Less(r[i].name, r[j].name) {}
  }

  lemma {:induction false} InsertNames(t: seq<Symbol>, p: nat, s: Symbol)
    requires p <= |t|
    ensures Names(Inserted(t, p, s)) == Names(t) + {s.name}
  {
    var r := Inserted(t, p, s);
    forall i | 0 <= i < |t| ensures t[i].name in Names(r) {
      assert r[if i < p then i else i + 1] == t[i];
    }
    assert r[p].name in Names(r);
  }

  /** Inserting a new symbol at its place adds it to the map. */
  lemma {:induction false} InsertKeeps(t: seq<Symbol>, p: nat, s: Symbol)
    requires p <= |t| && Sorted(t) && AllBelow(t[..p], s.name) && AllAbove(t[p..], s.name)
    ensures Sorted(Inserted(t, p, s)) && s.name !in Names(t) && AsMap(Inserted(t, p, s)) == AsMap(t)[s.name := s]
  {
    var r := Inserted(t, p, s);
    InsertSorted(t, p, s);
    InsertNames(t, p, s);
    var m := AsMap(t)[s.name := s];
    forall i | 0 <= i < |r| ensures m[r[i].name] == r[i] {
      if i != p { assert r[i] == t[if i < p then i else i - 1]; }
    }
    SameMap(AsMap(r), m, r);
  }

  function Deleted(t: seq<Symbol>, p: nat): (r: seq<Symbol>)
    requires p < |t|
    ensures |r| == |t| - 1
    ensures forall i :: 0 <= i < p ==> r[i] == t[i]
    ensures forall i :: p <= i < |r| ==> r[i] == t[i + 1]
  {
    t[..p] + t[p + 1..]
  }

  lemma {:induction false} DeleteNames(t: seq<Symbol>, p: nat)
    requires p < |t| && Sorted(t)
    ensures Names(Deleted(t, p)) == Names(t) - {t[p].name}
  {
    var r := Deleted(t, p);
    forall i | 0 <= i < |t| && i != p ensures t[i].name != t[p].name && t[i].name in Names(r) {
      LessTotal(t[i].name, t[p].name);
      LessTotal(t[p].name, t[i].name);
      assert r[if i < p then i else i - 1] == t[i];
    }
    forall i | 0 <= i < |r| ensures r[i].name in Names(t) - {t[p].name} {
      assert r[i] == t[if i < p then i else i + 1];
    }
  }

  /** Deleting an entry removes its name, and nothing else, from the map. */
  lemma {:induction false} DeleteKeeps(t: seq<Symbol>, p: nat)
    requires p < |t| && Sorted(t)
    ensures Sorted(Deleted(t, p)) && AsMap(Deleted(t, p)) == AsMap(t) - {t[p].name}
  {
    var r := Deleted(t, p);
    forall i, j | 0 <= i < j < |r| ensures Less(r[i].name, r[j].name) {
      assert r[i] == t[if i < p then i else i + 1] && r[j] == t[if j < p then j else j + 1];
    }
    DeleteNames(t, p);
    var m := AsMap(t) - {t[p].name};
    forall i | 0 <= i < |r| ensures m[r[i].name] == r[i] {
      assert r[i] == t[if i < p then i else i + 1];
      assert r[i].name in Names(r);
    }
    SameMap(AsMap(r), m, r);
  }

  /** The merge of two sorted tables; of two entries with one name the second table's is kept. */
  function Merge(a: seq<Symbol>, b: seq<Symbol>): (r: seq<Symbol>)
    ensures |r| <= |a| + |b|
    decreases |a| + |b|
  {
    if a == [] then b
    else if b == [] then a
    else if Less(a[0].name, b[0].name) then [a[0]] + Merge(a[1..], b)
    else if Less(b[0].name, a[0].name) then [b[0]] + Merge(a, b[1..])
    else [b[0]] + Merge(a[1..], b[1..])
  }

  lemma {:induction false} MergeBounded(a: seq<Symbol>, b: seq<Symbol>, s: string)
    requires AllAbove(a, s) && AllAbove(b, s)
    ensures AllAbove(Merge(a, b), s)
    decreases |a| + |b|
  {
    if a != [] && b != [] {
      if Less(a[0].name, b[0].name) { MergeBounded(a[1..], b, s); }
      else if Less(b[0].name, a[0].name) { MergeBounded(a, b[1..], s); }
      else { MergeBounded(a[1..], b[1..], s); }
    }
  }

  lemma {:induction false} HeadBelow(t: seq<Symbol>)
    requires Sorted(t) && t != []
    ensures Sorted(t[1..]) && AllAbove(t[1..], t[0].name)
  {
    hide Less;
  }

  lemma {:induction false} SortedCons(s: Symbol, t: seq<Symbol>)
    requires Sorted(t) && AllAbove(t, s.name)
    ensures Sorted([s] + t)
  {
    hide Less;
    var r := [s] + t;
    forall i, j | 0 <= i < j < |r| ensures Less(r[i].name, r[j].name) {
      assert r[j] == t[j - 1] && (i > 0 ==> r[i] == t[i - 1]);
    }
  }

  lemma {:induction false} AboveThrough(s: string, t: seq<Symbol>)
    requires Sorted(t) && t != [] && Less(s, t[0].name)
    ensures AllAbove(t, s)
  {
    hide Less;
    forall i | 0 <= i < |t| ensures Less(s, t[i].name) {
      if i > 0 { LessTransitive(s, t[0].name, t[i].name); }
    }
  }

  lemma {:induction false} MergeSorted(a: seq<Symbol>, b: seq<Symbol>)
    requires Sorted(a) && Sorted(b)
    ensures Sorted(Merge(a, b))
    decreases |a| + |b|
  {
    if a != [] && b != [] {
      HeadBelow(a);
      HeadBelow(b);
      LessTotal(a[0].name, b[0].name);
      if Less(a[0].name, b[0].name) {
        MergeSorted(a[1..], b);
        AboveThrough(a[0].name, b);
        MergeBounded(a[1..], b, a[0].name);
        SortedCons(a[0], Merge(a[1..], b));
      } else if Less(b[0].name, a[0].name) {
        MergeSorted(a, b[1..]);
        AboveThrough(b[0].name, a);
        MergeBounded(a, b[1..], b[0].name);
        SortedCons(b[0], Merge(a, b[1..]));
      } else {
        MergeSorted(a[1..], b[1..]);
        MergeBounded(a[1..], b[1..], b[0].name);
        SortedCons(b[0], Merge(a[1..], b[1..]));
      }
    }
  }

  /** Every entry of a merge is an entry of the second table, or one of the first that the second does not have. */
  lemma {:induction false} MergeEntries(a: seq<Symbol>, b: seq<Symbol>)
    requires Sorted(a) && Sorted(b)
    ensures forall s :: s in Merge(a, b) ==> s in b || (s in a && s.name !in Names(b))
    ensures Names(Merge(a, b)) == Names(a) + Names(b)
    decreases |a| + |b|
  {
    hide Less, Sorted, AllAbove, Names;
    if a != [] && b != [] {
      HeadBelow(a);
      HeadBelow(b);
      NamesCons(a);
      NamesCons(b);
      LessTotal(a[0].name, b[0].name);
      if Less(a[0].name, b[0].name) {
        MergeEntries(a[1..], b);
        AboveThrough(a[0].name, b);
        NotAmong(b, a[0].name);
        NamesCons(Merge(a, b));
      } else if Less(b[0].name, a[0].name) {
        MergeEntries(a, b[1..]);
        AboveThrough(b[0].name, a);
        NotAmong(a, b[0].name);
        InNames(a);
        NamesCons(Merge(a, b));
      } else {
        MergeEntries(a[1..], b[1..]);
        NotAmong(a[1..], b[0].name);
        InNames(a[1..]);
        NamesCons(Merge(a, b));
      }
    } else {
      NoNames();
      InNames(a);
    }
  }

  lemma {:induction false} NoNames()
    ensures Names([]) == {}
  {
  }

  lemma {:induction false} NamesCons(t: seq<Symbol>)
    requires t != []
    ensures Names(t) == {t[0].name} + Names(t[1..])
  {
    forall i | 0 < i < |t| ensures t[i].name in Names(t[1..]) { assert t[1..][i - 1] == t[i]; }
    forall i | 0 <= i < |t[1..]| ensures t[1..][i].name in Names(t) { assert t[i + 1] == t[1..][i]; }
  }

  lemma {:induction false} NotAmong(t: seq<Symbol>, s: string)
    requires AllAbove(t, s)
    ensures s !in Names(t)
  {
    forall i | 0 <= i < |t| ensures t[i].name != s { LessTotal(s, t[i].name); }
  }

  lemma {:induction false} InNames(t: seq<Symbol>)
    ensures forall s :: s in t ==> s.name in Names(t)
  {
  }

  /** A merge is the union of the two maps, the second winning. */
  lemma {:induction false} MergeIsUnion(a: seq<Symbol>, b: seq<Symbol>)
    requires Sorted(a) && Sorted(b)
    ensures Sorted(Merge(a, b)) && AsMap(Merge(a, b)) == AsMap(a) + AsMap(b)
  {
    var r, m := Merge(a, b), AsMap(a) + AsMap(b);
    MergeSorted(a, b);
    MergeEntries(a, b);
    InNames(b);
    forall i | 0 <= i < |r| ensures m[r[i].name] == r[i] {
      assert r[i] in r;
    }
    SameMap(AsMap(r), m, r);
  }
}
