/** The include graph of makedepend: struct inclist with its symbol table, and the operations of parse.c on it. */
module IncludeGraph {
  import opened SymbolTable

  function RoundUp(n: nat): nat {
    (n + SYMTABINC - 1) / SYMTABINC * SYMTABINC
  }

  class IncludeFile {
    const path: string              // i_file
    const incstring: string         // i_incstring
    var list: seq<IncludeFile>      // i_list
    var merged: seq<bool>           // i_merged
    var defs: array?<Symbol>        // i_defs
    var ndefs: nat                  // i_ndefs
    var checked: bool               // DEFCHECKED
    var finished: bool              // FINISHED
    var marked: bool                // MARKED
    var notified: bool              // NOTIFIED

    /** newinclude */
    constructor (newfile: string, incstring: string)
      ensures path == newfile && this.incstring == incstring && list == [] && merged == [] && defs == null && ndefs == 0
      ensures !checked && !finished && !marked && !notified
    {
      path, this.incstring, list, merged, defs, ndefs := newfile, incstring, [], [], null, 0;
      checked, finished, marked, notified := false, false, false, false;
    }

    /** The entries in use. */
    ghost function Table(): (t: seq<Symbol>)
      reads `defs, `ndefs, defs
    {
      if defs == null || ndefs > defs.Length then [] else defs[..ndefs]
    }

    /** The table is sorted and fits what was allocated for it, which is grown before it can overflow. */
    ghost predicate ValidTable()
      reads `defs, `ndefs, defs
    {
      && (defs == null ==> ndefs == 0)
      && (defs != null ==> ndefs <= defs.Length && RoundUp(ndefs) <= defs.Length)
      && Sorted(Table())
    }

    /** included_by: puts a file on the list once, not yet merged. */
    method IncludedBy(newfile: IncludeFile)
      requires |merged| == |list|
      modifies `list, `merged
      ensures |merged| == |list|
      ensures if newfile in old(list) then list == old(list) && merged == old(merged)
              else list == old(list) + [newfile] && merged == old(merged) + [false]
    {
      var i := 0;
      while i < |list|
        invariant 0 <= i <= |list| && newfile !in list[..i] && list == old(list) && merged == old(merged)
      {
        if list[i] == newfile { return; }
        i := i + 1;
      }
      list := list + [newfile];
      merged := merged + [false];
    }

    /** slookup: the index of the entry named `symbol`, or -1. */
    method Slookup(symbol: string) returns (k: int)
      requires ValidTable()
      ensures -1 <= k < ndefs
      ensures k >= 0 ==> Table()[k].name == symbol
      ensures k < 0 <==> symbol !in Names(Table())
    {
      hide Less, Sorted, AllBelow, AllAbove, RoundUp, Names;
      var first, last := 0, ndefs - 1;
      NoneAround(Table(), symbol);
      while last >= first
        invariant 0 <= first <= last + 1 <= ndefs
        invariant AllBelow(Table()[..first], symbol) && AllAbove(Table()[last + 1..], symbol)
        decreases last - first + 1
      {
        var middle := (first + last) / 2;
        var c := CompareNames(symbol, defs[middle].name);
        ghost var t := Table();
        if c == 0 {
          HasName(t, middle);
          return middle;
        }
        if c > 0 {
          BelowThrough(t, middle, symbol);
          first := middle + 1;
        } else {
          AboveFrom(t, middle, symbol);
          last := middle - 1;
        }
      }
      Absent(Table(), first, symbol);
      k := -1;
    }

    /** Makes room for one more entry when the table is missing or full; `filler` pads the new slots. */
    method Grow(filler: Symbol)
      requires ValidTable()
      modifies this`defs
      ensures defs != null && ndefs < defs.Length && RoundUp(ndefs + 1) <= defs.Length
      ensures ValidTable() && Table() == old(Table())
      ensures defs == old(defs) || fresh(defs)
    {
      if defs == null {
        defs := new Symbol[SYMTABINC](_ => filler);
      } else if ndefs % SYMTABINC == 0 {
        var more := new Symbol[ndefs + SYMTABINC](_ => filler);
        var full := defs;
        for i := 0 to ndefs
          invariant defs == full && forall j :: 0 <= j < i ==> more[j] == full[j]
        {
          more[i] := full[i];
        }
        assert more[..ndefs] == full[..ndefs];
        defs := more;
      }
    }

    /** The search of define2: the matching entry, or the index just below the place for a new one.
        That index is right only when the loop ends. */
    method FindPlace(name: string) returns (found: int, below: int)
      requires ValidTable()
      ensures -1 <= found < ndefs && -1 <= below <= ndefs
      ensures found >= 0 ==> Table()[found].name == name
      ensures found < 0 ==>
                var p := if ndefs == 0 then 0 else below + 1;
                0 <= p <= ndefs && AllBelow(Table()[..p], name) && AllAbove(Table()[p..], name)
    {
      hide Less, Sorted, AllBelow, AllAbove, RoundUp;
      found, below := -1, 0;
      var first, last := 0, ndefs - 1;
      NoneAround(Table(), name);
      while last >= first
        invariant 0 <= first <= last + 1 <= ndefs && -1 <= below <= ndefs && found == -1
        invariant AllBelow(Table()[..first], name) && AllAbove(Table()[last + 1..], name)
        invariant last < first ==> ndefs == 0 || below + 1 == first
        decreases last - first + 1
      {
        var middle := (first + last) / 2;
        var c := CompareNames(name, defs[middle].name);
        if c == 0 {
          found := middle;
          return;
        }
        ghost var t := Table();
        if c > 0 {
          BelowThrough(t, middle, name);
          below := first;
          first := middle + 1;
        } else {
          AboveFrom(t, middle, name);
          last := middle - 1;
          below := last;
        }
      }
    }

    /** Moves the entries from p on up by one slot and puts s at p. */
    method InsertAt(p: nat, s: Symbol)
      requires defs != null && ndefs < defs.Length && p <= ndefs
      modifies defs, this`ndefs
      ensures ndefs == old(ndefs) + 1 && Table() == Inserted(old(Table()), p, s)
    {
      ghost var t := Table();
      var sp := ndefs;
      ndefs := ndefs + 1;
      while sp > p
        invariant p <= sp <= |t| && ndefs == |t| + 1 && defs == old(defs)
        invariant forall i :: 0 <= i < sp ==> defs[i] == t[i]
        invariant forall i :: sp < i <= |t| ==> defs[i] == t[i - 1]
      {
        defs[sp] := defs[sp - 1];
        sp := sp - 1;
      }
      defs[sp] := s;
      assert defs[..ndefs] == Inserted(t, p, s);
    }

    /** define2: gives `name` the value, in the entry it has or in a new one.  Other tables that share the entry
        see the new value too. */
    method Define2(name: string, val: string)
      requires ValidTable()
      modifies this`defs, this`ndefs, if defs == null then {} else {defs}, Table()
      ensures ValidTable() && (defs == old(defs) || fresh(defs))
      ensures name in old(Names(Table())) ==> Table() == old(Table())
      ensures name !in old(Names(Table())) ==>
                exists s: Symbol :: fresh(s) && s.name == name && AsMap(Table()) == old(AsMap(Table()))[name := s]
      ensures name in AsMap(Table()) && AsMap(Table())[name].value == val
      ensures forall s: Symbol :: s in old(Table()) && s.name != name ==> s.value == old(s.value)
    {
      hide Less, Sorted, AllBelow, AllAbove, RoundUp, AsMap, Represents, Names, Inserted;
      var stab := new Symbol(name, val);
      ghost var t := Table();
      Grow(stab);
      var found, below := FindPlace(name);
      if found >= 0 {
        InNames(t);
        EntryIs(t, found);
        defs[found].value := val;
      } else {
        var p := if ndefs <= below + 1 then ndefs else below + 1;
        InsertKeeps(t, p, stab);
        InsertAt(p, stab);
      }
    }

    /** The body of undefine's loop: moves the entries above k down by one slot. */
    method RemoveAt(k: nat)
      requires ValidTable() && k < ndefs
      modifies `ndefs, defs
      ensures ValidTable() && Table() == Deleted(old(Table()), k)
    {
      hide Sorted, AsMap, Less, Deleted, RoundUp;
      ghost var t, d := Table(), Deleted(Table(), k);
      DeleteKeeps(t, k);
      RoundUpGrows(ndefs - 1, ndefs);
      ndefs := ndefs - 1;
      var ptr := k;
      while ptr < ndefs
        invariant k <= ptr <= ndefs == |d| && defs == old(defs) && ndefs < defs.Length
        invariant forall i :: 0 <= i < ptr ==> defs[i] == d[i]
        invariant forall i :: ptr < i <= ndefs ==> defs[i] == t[i]
      {
        assert d[ptr] == t[ptr + 1];
        defs[ptr] := defs[ptr + 1];
        ptr := ptr + 1;
      }
      assert defs[..ndefs] == d;
    }

    /** merge2defines(this, other): a new table holding both, the other's entries winning. */
    method Merge2Defines(other: IncludeFile)
      requires ValidTable() && other.ValidTable()
      modifies this`defs, this`ndefs
      ensures ValidTable() && Table() == Merge(old(Table()), old(other.Table()))
      ensures AsMap(Table()) == old(AsMap(Table())) + old(AsMap(other.Table()))
      ensures defs == null || fresh(defs)
    {
      hide Less, Sorted, AsMap, Represents, Names, Merge, RoundUp;
      MergeIsUnion(Table(), other.Table());
      MergeNothing();
      RoundUpNothing();
      var deflen := ndefs + other.ndefs;
      if deflen == 0 {
        defs := null;
        return;
      }
      RoundUpIs(deflen);
      deflen := deflen + (SYMTABINC - deflen % SYMTABINC) % SYMTABINC;
      var filler := if ndefs > 0 then defs[0] else other.defs[0];
      var into := new Symbol[deflen](_ => filler);
      var first := MergeArrays(into, defs, ndefs, other.defs, other.ndefs);
      RoundUpGrows(first, ndefs + other.ndefs);
      defs, ndefs := into, first;
    }
  }

  lemma {:induction false} RoundUpNothing()
    ensures RoundUp(0) == 0
  {
  }

  lemma {:induction false} RoundUpGrows(m: nat, n: nat)
    ensures m <= n ==> RoundUp(m) <= RoundUp(n)
  {
  }

  lemma {:induction false} RoundUpIs(n: nat)
    ensures RoundUp(n) == n + (SYMTABINC - n % SYMTABINC) % SYMTABINC
  {
  }

  /** The first n entries of a table that may be missing. */
  ghost function Used(a: array?<Symbol>, n: nat): (t: seq<Symbol>)
    reads a
  {
    if a == null || n > a.Length then [] else a[..n]
  }

  /** The three loops of merge2defines. */
  method MergeArrays(into: array<Symbol>, a: array?<Symbol>, n1: nat, b: array?<Symbol>, n2: nat) returns (first: nat)
    requires a == null ==> n1 == 0
    requires b == null ==> n2 == 0
    requires a != null ==> n1 <= a.Length
    requires b != null ==> n2 <= b.Length
    requires into != a && into != b && into.Length >= n1 + n2
    modifies into
    ensures first <= n1 + n2 && into[..first] == Merge(Used(a, n1), Used(b, n2))
  {
    hide Merge;
    ghost var ta, tb := Used(a, n1), Used(b, n2);
    var first1, first2;
    first, first1, first2 := MergeBoth(into, a, n1, b, n2);
    MergeEnd(ta[first1..], tb[first2..]);
    first := CopyRest(into, first, a, first1, n1, Merge(ta, tb), tb[first2..]);
    assert tb[first2..] + [] == tb[first2..];
    first := CopyRest(into, first, b, first2, n2, Merge(ta, tb), []);
    assert into[..first] + [] == into[..first];
  }

  /** The loop that takes the smaller head, or of two equal ones the second table's. */
  method MergeBoth(into: array<Symbol>, a: array?<Symbol>, n1: nat, b: array?<Symbol>, n2: nat) returns (first: nat, first1: nat, first2: nat)
    requires a == null ==> n1 == 0
    requires b == null ==> n2 == 0
    requires a != null ==> n1 <= a.Length
    requires b != null ==> n2 <= b.Length
    requires into != a && into != b && into.Length >= n1 + n2
    modifies into
    ensures first1 <= n1 && first2 <= n2 && (first1 == n1 || first2 == n2) && first <= first1 + first2
    ensures into[..first] + Merge(Used(a, n1)[first1..], Used(b, n2)[first2..]) == Merge(Used(a, n1), Used(b, n2))
  {
    hide Less, Merge, Used;
    ghost var ta, tb := Used(a, n1), Used(b, n2);
    UsedIs(a, n1);
    UsedIs(b, n2);
    ghost var out: seq<Symbol> := [];
    first, first1, first2 := 0, 0, 0;
    assert ta[0..] == ta && tb[0..] == tb && [] + Merge(ta, tb) == Merge(ta, tb);
    while first1 < n1 && first2 < n2
      invariant 0 <= first1 <= n1 && 0 <= first2 <= n2 && first <= first1 + first2
      invariant |out| == first && into[..first] == out
      invariant out + Merge(ta[first1..], tb[first2..]) == Merge(ta, tb)
      decreases n1 - first1 + n2 - first2
    {
      var s1, s2 := a[first1], b[first2];
      assert s1 == ta[first1] && s2 == tb[first2];
      MergeStep(out, ta, tb, first1, first2);
      var c := CompareNames(s1.name, s2.name);
      var s := if c < 0 then s1 else s2;
      if c <= 0 { first1 := first1 + 1; }
      if c >= 0 { first2 := first2 + 1; }
      into[first] := s;
      first := first + 1;
      assert into[..first] == out + [s];
      out := out + [s];
    }
  }

  lemma {:induction false} UsedIs(a: array?<Symbol>, n: nat)
    requires a == null ==> n == 0
    requires a != null ==> n <= a.Length
    ensures |Used(a, n)| == n && forall i :: 0 <= i < n ==> Used(a, n)[i] == a[i]
  {
  }

  lemma {:induction false} MergeStep(done: seq<Symbol>, a: seq<Symbol>, b: seq<Symbol>, i: nat, j: nat)
    requires i < |a| && j < |b|
    ensures done + Merge(a[i..], b[j..]) ==
            if Less(a[i].name, b[j].name) then (done + [a[i]]) + Merge(a[i + 1..], b[j..])
            else if Less(b[j].name, a[i].name) then (done + [b[j]]) + Merge(a[i..], b[j + 1..])
            else (done + [b[j]]) + Merge(a[i + 1..], b[j + 1..])
  {
    assert a[i..][1..] == a[i + 1..] && b[j..][1..] == b[j + 1..];
  }

  lemma {:induction false} MergeNothing()
    ensures Merge([], []) == []
  {
  }

  lemma {:induction false} MergeEnd(a: seq<Symbol>, b: seq<Symbol>)
    requires a == [] || b == []
    ensures Merge(a, b) == a + b
  {
    assert a + [] == a && [] + b == b;
  }

  lemma {:induction false} EntryIs(t: seq<Symbol>, k: nat)
    requires Sorted(t) && k < |t|
    ensures t[k].name in AsMap(t) && AsMap(t)[t[k].name] == t[k]
    ensures forall s: Symbol :: s in t && s.name == t[k].name ==> s == t[k]
  {
    forall i | 0 <= i < |t| && t[i].name == t[k].name ensures i == k {
      if i < k { LessTotal(t[i].name, t[k].name); } else if k < i { LessTotal(t[k].name, t[i].name); }
    }
  }

  lemma {:induction false} HasName(t: seq<Symbol>, k: nat)
    requires k < |t|
    ensures t[k].name in Names(t)
  {
  }

  lemma {:induction false} NoneAround(t: seq<Symbol>, s: string)
    ensures AllBelow(t[..0], s) && AllAbove(t[|t|..], s)
  {
  }

  lemma {:induction false} BelowThrough(t: seq<Symbol>, p: nat, s: string)
    requires Sorted(t) && p < |t| && Less(t[p].name, s)
    ensures AllBelow(t[..p + 1], s)
  {
    forall i | 0 <= i < p ensures Less(t[i].name, s) {
      LessTransitive(t[i].name, t[p].name, s);
    }
  }

  lemma {:induction false} AboveFrom(t: seq<Symbol>, p: nat, s: string)
    requires Sorted(t) && p < |t| && Less(s, t[p].name)
    ensures AllAbove(t[p..], s)
  {
    forall i | p < i < |t| ensures Less(s, t[i].name) {
      LessTransitive(s, t[p].name, t[i].name);
    }
  }

  lemma {:induction false} Absent(t: seq<Symbol>, p: nat, s: string)
    requires p <= |t| && AllBelow(t[..p], s) && AllAbove(t[p..], s)
    ensures s !in Names(t)
  {
    forall i | 0 <= i < |t| ensures t[i].name != s {
      if i < p { assert t[..p][i] == t[i]; } else { assert t[p..][i - p] == t[i]; }
      LessTotal(t[i].name, s);
    }
  }

  /** Copies what is left of one table behind what has been merged. */
  method CopyRest(into: array<Symbol>, first0: nat, a: array?<Symbol>, from: nat, n: nat, ghost whole: seq<Symbol>, ghost rest: seq<Symbol>)
      returns (first: nat)
    requires a == null ==> n == 0
    requires a != null ==> n <= a.Length
    requires from <= n && into != a && first0 + (n - from) <= into.Length
    requires into[..first0] + (Used(a, n)[from..] + rest) == whole
    modifies into
    ensures first == first0 + (n - from) && first <= into.Length && into[..first] + rest == whole
  {
    first := first0;
    var k := from;
    ghost var t := Used(a, n);
    while k < n
      invariant from <= k <= n && first == first0 + (k - from) && Used(a, n) == t
      invariant into[..first] + (t[k..] + rest) == whole
    {
      OneMore(into[..first], t, k, rest);
      into[first] := a[k];
      assert into[..first + 1] == into[..first] + [t[k]];
      first, k := first + 1, k + 1;
    }
    OneMore(into[..first], t, k, rest);
  }

  lemma {:induction false} OneMore(done: seq<Symbol>, t: seq<Symbol>, k: nat, rest: seq<Symbol>)
    requires k <= |t|
    ensures k < |t| ==> done + (t[k..] + rest) == (done + [t[k]]) + (t[k + 1..] + rest)
    ensures k == |t| ==> done + (t[k..] + rest) == done + rest
  {
  }
}
