/** fdefined, isdefined and undefine on the files themselves: the methods leave exactly the graph, and return exactly
    the entry, that DefinitionSearch gives. */
module SymbolLookup {
  import opened SymbolTable
  import opened IncludeGraph
  import opened DefinitionSearch
  import opened DefinitionOrder

  // ----- the files as a graph -----

  ghost function Arrays(U: set<IncludeFile>): set<array<Symbol>>
    reads U
  {
    set f | f in U && f.defs != null :: f.defs
  }

  ghost function ViewOf(f: IncludeFile): View
    reads f, f.defs
  {
    View(f.list, f.merged, f.Table(), f.checked, f.finished)
  }

  ghost function GraphOf(U: set<IncludeFile>): (g: Graph)
    reads U, Arrays(U)
    ensures g.Keys == U
  {
    map f | f in U :: ViewOf(f)
  }

  /** No two tables share an array. */
  ghost predicate Apart(U: set<IncludeFile>)
    reads U
  {
    forall f, h :: f in U && h in U && f != h && f.defs != null ==> f.defs != h.defs
  }

  /** Every file includes files of U only, its table is in order and within what was allocated for it. */
  ghost predicate Valid(U: set<IncludeFile>)
    reads U, Arrays(U)
  {
    WellFormed(GraphOf(U)) && Apart(U) && forall f :: f in U ==> f.ValidTable()
  }

  lemma {:induction false} Lengths(g: Graph, f: IncludeFile)
    requires WellFormed(g) && f in g
    ensures |g[f].merged| == |g[f].list| && forall i :: 0 <= i < |g[f].list| ==> g[f].list[i] in g
  {
  }

  lemma {:induction false} MarkUnchecked(g: Graph, f: IncludeFile)
    requires WellFormed(g) && f in g && !g[f].checked
    ensures Unchecked(Mark(g, f, true)) < Unchecked(g)
  {
    assert f in Unchecked(g) && f !in Unchecked(Mark(g, f, true));
  }

  /** A sorted table has one entry of a name at most. */
  lemma {:induction false} OneIndex(t: seq<Symbol>, s: string, k: nat)
    requires Sorted(t) && k < |t| && t[k].name == s
    ensures IndexOf(t, s) == k
  {
    assert t[k].name in Names(t);
    var j := IndexOf(t, s);
    if j < k { LessTotal(t[j].name, t[k].name); } else if k < j { LessTotal(t[k].name, t[j].name); }
  }

  // ----- fdefined -----

  lemma {:induction false} GraphIs(U: set<IncludeFile>, g: Graph)
    requires g.Keys == U && forall f :: f in U ==> ViewOf(f) == g[f]
    ensures GraphOf(U) == g
  {
  }

  method SetChecked(f: IncludeFile, checked: bool, ghost U: set<IncludeFile>)
    requires Valid(U) && f in U
    modifies f`checked
    ensures Valid(U) && GraphOf(U) == Mark(old(GraphOf(U)), f, checked) && f.checked == checked
  {
    hide Sorted, IncludeFile.Table, IncludeFile.ValidTable;
    ghost var g := Mark(GraphOf(U), f, checked);
    f.checked := checked;
    GraphIs(U, g);
  }

  lemma {:induction false} AbsorbView(f: IncludeFile, i: nat, U: set<IncludeFile>) returns (g: Graph)
    requires Valid(U) && f in U && i < |f.list|
    ensures g == Absorb(GraphOf(U), f, i) && g.Keys == U && WellFormed(g)
    ensures forall x :: x in U && x != f ==> g[x] == ViewOf(x)
    ensures var c := f.list[i];
            c in U && |f.merged| == |f.list|
            && g[f] == if c.finished then View(f.list, f.merged[i := true], Merge(f.Table(), c.Table()), f.checked, f.finished)
                       else ViewOf(f)
  {
    hide Sorted, Merge, AsMap, IncludeFile.Table, IncludeFile.ValidTable;
    assert WellFormed(GraphOf(U)) && GraphOf(U)[f] == ViewOf(f);
    g := Absorb(GraphOf(U), f, i);
  }

  /** After the i-th file that f includes has been searched: a finished one is merged into f. */
  method AbsorbFile(f: IncludeFile, i: nat, ghost U: set<IncludeFile>)
    requires Valid(U) && f in U && i < |f.list|
    modifies f`merged, f`defs, f`ndefs
    ensures Valid(U) && GraphOf(U) == Absorb(old(GraphOf(U)), f, i)
    ensures f.defs == null || f.defs == old(f.defs) || fresh(f.defs)
  {
    hide Sorted, Merge, AsMap, IncludeFile.Table, IncludeFile.ValidTable, WellFormed;
    ghost var g := AbsorbView(f, i, U);
    var c := f.list[i];
    if c.finished {
      f.Merge2Defines(c);
      f.merged := f.merged[i := true];
    }
    assert Apart(U);
    hide Apart, Absorb;
    GraphIs(U, g);
  }

  ghost function Answer(srcfile: IncludeFile?, k: nat): Found {
    if srcfile == null then NotFound else At(srcfile, k)
  }

  /** fdefined: what it found is an entry of the array that srcfile has at the end. */
  method FDefined(symbol: string, file: IncludeFile, ghost U: set<IncludeFile>)
      returns (srcfile: IncludeFile?, ptr: array?<Symbol>, k: nat)
    requires Valid(U) && file in U
    modifies U`checked, U`merged, U`defs, U`ndefs
    ensures Valid(U) && (GraphOf(U), Answer(srcfile, k)) == SearchFile(old(GraphOf(U)), symbol, file)
    ensures srcfile != null ==> srcfile in U && !old(srcfile.checked) && ptr == srcfile.defs
    ensures forall f :: f in U ==> f.checked == old(f.checked) && (f.checked ==> f.defs == old(f.defs))
    ensures forall f :: f in U ==> f.defs == null || f.defs == old(f.defs) || fresh(f.defs)
    decreases Unchecked(GraphOf(U)), 0
  {
    hide Sorted, Absorb, SearchList, IncludeFile.Table, IncludeFile.ValidTable, Names, IndexOf, WellFormed, Apart;
    ghost var g := GraphOf(U);
    assert g[file] == ViewOf(file) && file.ValidTable();
    srcfile, ptr, k := null, null, 0;
    if file.checked { return; }
    hide Valid, GraphOf;
    var found := file.Slookup(symbol);
    SlookupIs(file, symbol, found);
    assert GraphOf(U) == g;
    if found >= 0 {
      srcfile, ptr, k := file, file.defs, found;
      return;
    }
    MarkUnchecked(g, file);
    SetChecked(file, true, U);
    srcfile, ptr, k := SearchIncludes(symbol, file, U);
    SetChecked(file, false, U);
  }

  lemma {:induction false} SlookupIs(file: IncludeFile, symbol: string, k: int)
    requires file.ValidTable() && -1 <= k < file.ndefs
    requires k >= 0 ==> file.Table()[k].name == symbol
    requires k < 0 <==> symbol !in Names(file.Table())
    ensures IndexOf(file.Table(), symbol) == k
  {
    if k >= 0 { OneIndex(file.Table(), symbol, k); }
  }

  lemma {:induction false} GraphFormed(U: set<IncludeFile>)
    requires Valid(U)
    ensures WellFormed(GraphOf(U))
  {
  }

  /** The loop of fdefined. */
  method SearchIncludes(symbol: string, file: IncludeFile, ghost U: set<IncludeFile>)
      returns (srcfile: IncludeFile?, ptr: array?<Symbol>, k: nat)
    requires Valid(U) && file in U && file.checked
    modifies U`checked, U`merged, U`defs, U`ndefs
    ensures Valid(U) && (GraphOf(U), Answer(srcfile, k)) == SearchList(old(GraphOf(U)), symbol, file, 0)
    ensures srcfile != null ==> srcfile in U && !old(srcfile.checked) && ptr == srcfile.defs
    ensures forall f :: f in U ==> f.checked == old(f.checked) && (f.checked && f != file ==> f.defs == old(f.defs))
    ensures forall f :: f in U ==> f.defs == null || f.defs == old(f.defs) || fresh(f.defs)
    decreases Unchecked(GraphOf(U)), 2
  {
    hide SearchFile, SearchList, Absorb, Sorted, Merge, WellFormed, SameFlags, SameFiles, Apart, Unchecked, IncludeFile.ValidTable, IncludeFile.Table, Valid;
    GraphFormed(U);
    ghost var g := GraphOf(U);
    srcfile, ptr, k := null, null, 0;
    var i := 0;
    while i < |file.list| && srcfile == null
      invariant Valid(U) && WellFormed(GraphOf(U)) && 0 <= i <= |file.list| && file.list == old(file.list) && file.checked
      invariant Unchecked(GraphOf(U)) == Unchecked(g)
      invariant SearchList(g, symbol, file, 0) ==
                if srcfile != null then (GraphOf(U), Answer(srcfile, k)) else SearchList(GraphOf(U), symbol, file, i)
      invariant srcfile != null ==> srcfile in U && !old(srcfile.checked) && ptr == srcfile.defs
      invariant forall f :: f in U ==> f.checked == old(f.checked) && (f.checked && f != file ==> f.defs == old(f.defs))
      invariant forall f :: f in U ==> f.defs == null || f.defs == old(f.defs) || fresh(f.defs)
    {
      assert GraphOf(U)[file] == ViewOf(file);
      Lengths(GraphOf(U), file);
      ListStep(GraphOf(U), symbol, file, i);
      if !file.merged[i] {
        srcfile, ptr, k := SearchOne(symbol, file, i, U);
        GraphFormed(U);
      }
      i := i + 1;
    }
    if srcfile == null {
      assert GraphOf(U)[file] == ViewOf(file);
      ListEnd(GraphOf(U), symbol, file);
    }
  }

  /** One round of the loop: the i-th file that `file` includes is searched, and merged when finished. */
  method SearchOne(symbol: string, file: IncludeFile, i: nat, ghost U: set<IncludeFile>)
      returns (srcfile: IncludeFile?, ptr: array?<Symbol>, k: nat)
    requires Valid(U) && file in U && file.checked && i < |file.list| && file.list[i] in U
    modifies U`checked, U`merged, U`defs, U`ndefs
    ensures Valid(U)
    ensures var (h, r) := SearchFile(old(GraphOf(U)), symbol, file.list[i]);
            i < |h[file].list| && GraphOf(U) == Absorb(h, file, i) && Answer(srcfile, k) == r
    ensures srcfile != null ==> srcfile in U && !old(srcfile.checked) && ptr == srcfile.defs
    ensures forall f :: f in U ==> f.checked == old(f.checked) && (f.checked && f != file ==> f.defs == old(f.defs))
    ensures forall f :: f in U ==> f.defs == null || f.defs == old(f.defs) || fresh(f.defs)
    decreases Unchecked(GraphOf(U)), 1
  {
    hide SearchFile, Absorb, Sorted, Merge, WellFormed, SameFlags, SameFiles, Apart;
    srcfile, ptr, k := FDefined(symbol, file.list[i], U);
    assert GraphOf(U)[file] == ViewOf(file);
    AbsorbFile(file, i, U);
  }

  // ----- isdefined -----

  /** isdefined: the command-line table first, then the include graph. */
  ghost function SearchAll(g: Graph, s: string, main: IncludeFile, f: IncludeFile): (r: (Graph, Found))
    requires WellFormed(g) && f in g && main in g
    ensures WellFormed(r.0)
  {
    var k := IndexOf(g[main].table, s);
    if k >= 0 then (g, At(main, k)) else SearchFile(g, s, f)
  }

  /** The table of `main` wins.  Otherwise the answer is an entry of the file that the walk over the graph comes to first. */
  lemma {:induction false} SearchAllWins(g: Graph, s: string, main: IncludeFile, f: IncludeFile, q: (Graph, Found))
    requires WellFormed(g) && f in g && main in g && Idle(g) && q == SearchAll(g, s, main, f)
    ensures s in Names(g[main].table) ==> q.0 == g && q.1.At? && q.1.file == main && EntryOf(g, main, q.1.k, s)
    ensures s !in Names(g[main].table) ==> ChoiceOf(q.1) == First(g, s, f, {})
    ensures s !in Names(g[main].table) && q.1.At? ==> Reaches(g, f, q.1.file) && EntryOf(q.0, q.1.file, q.1.k, s)
    ensures q.1.At? ==> q.1.file in g && q.1.file in q.0 && q.0[q.1.file].table == g[q.1.file].table
  {
    hide SearchFile, First, Sorted, Reaches, Visible;
    if IndexOf(g[main].table, s) < 0 {
      FirstIsFound(g, s, f);
      SearchIsExact(g, s, f);
    }
  }

  method IsDefined(symbol: string, main: IncludeFile, file: IncludeFile, ghost U: set<IncludeFile>)
      returns (srcfile: IncludeFile?, ptr: array?<Symbol>, k: nat)
    requires Valid(U) && file in U && main in U && Idle(GraphOf(U))
    modifies U`checked, U`merged, U`defs, U`ndefs
    ensures Valid(U) && (GraphOf(U), Answer(srcfile, k)) == SearchAll(old(GraphOf(U)), symbol, main, file)
    ensures srcfile != null ==> srcfile in U && ptr == srcfile.defs && EntryOf(GraphOf(U), srcfile, k, symbol)
    ensures srcfile != null ==> GraphOf(U)[srcfile].table == old(GraphOf(U))[srcfile].table
    ensures if symbol in old(Names(GraphOf(U)[main].table)) then srcfile == main && GraphOf(U) == old(GraphOf(U))
            else ChoiceOf(Answer(srcfile, k)) == First(old(GraphOf(U)), symbol, file, {})
    ensures forall f :: f in U ==> f.defs == null || f.defs == old(f.defs) || fresh(f.defs)
  {
    hide Sorted, SearchFile, First, IncludeFile.Table, IncludeFile.ValidTable, Names, IndexOf, WellFormed, Apart, Idle, EntryOf;
    ghost var g := GraphOf(U);
    SearchAllWins(g, symbol, main, file, SearchAll(g, symbol, main, file));
    assert g[main] == ViewOf(main) && main.ValidTable();
    hide Valid, GraphOf;
    var found := main.Slookup(symbol);
    SlookupIs(main, symbol, found);
    assert GraphOf(U) == g;
    if found >= 0 {
      return main, main.defs, found;
    }
    srcfile, ptr, k := FDefined(symbol, file, U);
  }

  // ----- undefine -----

  ghost function Remove(g: Graph, f: IncludeFile, k: nat): (h: Graph)
    requires WellFormed(g) && f in g && k < |g[f].table|
    ensures WellFormed(h) && SameFlags(g, h)
  {
    RemoveSorted(g, f, k);
    g[f := g[f].(table := Deleted(g[f].table, k))]
  }

  lemma {:induction false} RemoveSorted(g: Graph, f: IncludeFile, k: nat)
    requires WellFormed(g) && f in g && k < |g[f].table|
    ensures Sorted(Deleted(g[f].table, k))
  {
    hide Deleted;
    DeleteKeeps(g[f].table, k);
  }

  ghost function Holders(g: Graph, s: string): set<IncludeFile> {
    set f | f in g && s in Names(g[f].table)
  }

  /** Edges have only been cut, and no file has lost any name but s. */
  ghost predicate Kept(g: Graph, h: Graph, s: string) {
    && SameFiles(g, h) && OpenEdges(h) <= OpenEdges(g) && AllNames(h) <= AllNames(g)
    && forall f :: f in g ==> Names(g[f].table) - {s} <= Names(h[f].table)
  }

  lemma {:induction false} KeptTransitive(g: Graph, h: Graph, k: Graph, s: string)
    requires Kept(g, h, s) && Kept(h, k, s)
    ensures Kept(g, k, s)
  {
  }

  lemma {:induction false} ProgressKeeps(g: Graph, h: Graph, s: string)
    requires Progress(g, h)
    ensures Kept(g, h, s)
  {
  }

  /** Removing an entry of s leaves one file fewer that has it. */
  lemma {:induction false} RemoveKeeps(g: Graph, f: IncludeFile, k: nat, s: string)
    requires WellFormed(g) && f in g && k < |g[f].table| && g[f].table[k].name == s
    ensures Kept(g, Remove(g, f, k), s) && OpenEdges(Remove(g, f, k)) == OpenEdges(g)
    ensures Holders(Remove(g, f, k), s) < Holders(g, s)
  {
    DeleteNames(g[f].table, k);
    assert g[f].table[k].name in Names(g[f].table);
    assert f in Holders(g, s) && f !in Holders(Remove(g, f, k), s);
  }

  /** A search either cuts an edge or leaves the holders of s alone. */
  lemma {:induction false} SearchAllProgress(g: Graph, s: string, main: IncludeFile, f: IncludeFile, q: (Graph, Found))
    requires WellFormed(g) && f in g && main in g && Idle(g) && q == SearchAll(g, s, main, f)
    ensures Kept(g, q.0, s) && Idle(q.0)
    ensures OpenEdges(q.0) == OpenEdges(g) ==> Holders(q.0, s) == Holders(g, s)
    ensures OpenEdges(q.0) <= OpenEdges(g)
    ensures q.1.At? ==> EntryOf(q.0, q.1.file, q.1.k, s)
    ensures q.1.NotFound? ==> s !in Names(q.0[main].table) && !Visible(q.0, s, f)
  {
    hide SearchFile, Progress, Sorted, Visible;
    if IndexOf(g[main].table, s) >= 0 {
      ProgressNone(g);
    } else {
      SearchIsExact(g, s, f);
      FileProgress(g, s, f, q);
    }
    ProgressKeeps(g, q.0, s);
    HoldersSame(g, q.0, s);
  }

  lemma {:induction false} HoldersSame(g: Graph, h: Graph, s: string)
    requires Progress(g, h)
    ensures OpenEdges(h) == OpenEdges(g) ==> Holders(h, s) == Holders(g, s)
  {
  }

  /** The body of undefine's loop. */
  method RemoveEntry(f: IncludeFile, k: nat, ghost U: set<IncludeFile>)
    requires Valid(U) && f in U && k < f.ndefs && k < |GraphOf(U)[f].table|
    modifies f`ndefs, f.defs
    ensures Valid(U) && GraphOf(U) == Remove(old(GraphOf(U)), f, k)
  {
    hide Sorted, Deleted, AsMap;
    ghost var g := Remove(GraphOf(U), f, k);
    assert GraphOf(U)[f] == ViewOf(f);
    assert forall x :: x in U && x != f ==> g[x] == ViewOf(x) && x.ValidTable();
    hide IncludeFile.Table, IncludeFile.ValidTable, WellFormed;
    f.RemoveAt(k);
    assert Apart(U);
    hide Apart, Remove;
    GraphIs(U, g);
  }

  /** undefine removes the entries of a symbol one by one.  Each look-up may make new copies by merging, but then it
      cuts an edge; so the loop ends, and leaves the symbol visible neither from the file nor on the command line. */
  method Undefine(symbol: string, main: IncludeFile, file: IncludeFile, ghost U: set<IncludeFile>)
    requires Valid(U) && file in U && main in U && Idle(GraphOf(U))
    modifies U`checked, U`merged, U`defs, U`ndefs, Arrays(U)
    ensures Valid(U) && Idle(GraphOf(U)) && Kept(old(GraphOf(U)), GraphOf(U), symbol)
    ensures symbol !in Names(GraphOf(U)[main].table) && !Visible(GraphOf(U), symbol, file)
  {
    ghost var g, A := GraphOf(U), Arrays(U);
    assert WellFormed(g) && forall f :: f in U && f.defs != null ==> f.defs in A;
    hide *;
    var srcfile, ptr, k := IsDefined(symbol, main, file, U);
    FirstRound(g, symbol, main, file, srcfile, k, U);
    ghost var h := GraphOf(U);
    UndefineFrom(symbol, main, file, srcfile, k, U);
    Final(symbol, main, file, k, U);
    KeptTransitive(g, h, GraphOf(U), symbol);
  }

  /** The loop of undefine, written as a recursion: from the entry found on. */
  method UndefineFrom(symbol: string, main: IncludeFile, file: IncludeFile, src: IncludeFile?, j: nat, ghost U: set<IncludeFile>)
    requires Valid(U) && file in U && main in U && Outcome(U, symbol, main, file, src, j)
    modifies U`checked, U`merged, U`defs, U`ndefs, Arrays(U)
    ensures Valid(U) && Outcome(U, symbol, main, file, null, j) && Kept(old(GraphOf(U)), GraphOf(U), symbol)
    decreases EdgesLeft(GraphOf(U)), HoldersLeft(GraphOf(U), symbol)
  {
    assert forall f :: f in U && f.defs != null ==> f.defs in Arrays(U);
    ghost var g := GraphOf(U);
    KeptNone(g, symbol);
    HasTable(U, symbol, main, file, src, j);
    hide *;
    if src != null {
      var srcfile, ptr, k := UndefineRound(symbol, main, file, src, j, U);
      FewerMeans(GraphOf(U), g, symbol);
      ghost var h := GraphOf(U);
      UndefineFrom(symbol, main, file, srcfile, k, U);
      KeptTransitive(g, h, GraphOf(U), symbol);
    }
  }

  lemma {:induction false} KeptNone(g: Graph, s: string)
    ensures Kept(g, g, s)
  {
  }

  lemma {:induction false} HasTable(U: set<IncludeFile>, s: string, main: IncludeFile, f: IncludeFile, srcfile: IncludeFile?, k: nat)
    requires Valid(U) && main in U && Outcome(U, s, main, f, srcfile, k)
    ensures srcfile != null ==> srcfile in U && srcfile.defs != null
  {
  }

  lemma {:induction false} FirstRound(g: Graph, s: string, main: IncludeFile, f: IncludeFile, srcfile: IncludeFile?, k: nat, U: set<IncludeFile>)
    requires Valid(U) && WellFormed(g) && g.Keys == U && f in U && main in U && Idle(g)
    requires (GraphOf(U), Answer(srcfile, k)) == SearchAll(g, s, main, f)
    ensures Outcome(U, s, main, f, srcfile, k) && Kept(g, GraphOf(U), s)
    ensures srcfile != null ==> srcfile in U && srcfile.defs != null
  {
    hide SearchAll, Kept, Visible, Names, Idle, Valid;
    SearchAllProgress(g, s, main, f, (GraphOf(U), Answer(srcfile, k)));
    if srcfile != null { EntryIndex(srcfile, k, s, U); }
  }

  lemma {:induction false} Final(s: string, main: IncludeFile, f: IncludeFile, k: nat, U: set<IncludeFile>)
    requires main in U && Outcome(U, s, main, f, null, k)
    ensures Idle(GraphOf(U)) && s !in Names(GraphOf(U)[main].table) && !Visible(GraphOf(U), s, f)
  {
  }

  /** What isdefined leaves: an entry of the symbol, or a graph where it is not visible. */
  ghost predicate Outcome(U: set<IncludeFile>, s: string, main: IncludeFile, f: IncludeFile, srcfile: IncludeFile?, k: nat)
    reads U, Arrays(U)
    requires main in U
  {
    && Idle(GraphOf(U))
    && if srcfile != null then srcfile in U && srcfile.defs != null && EntryOf(GraphOf(U), srcfile, k, s)
       else s !in Names(GraphOf(U)[main].table) && !Visible(GraphOf(U), s, f)
  }

  /** One round of undefine's loop: an entry goes, and the symbol is looked for again. */
  method UndefineRound(symbol: string, main: IncludeFile, file: IncludeFile, src: IncludeFile, j: nat, ghost U: set<IncludeFile>)
      returns (srcfile: IncludeFile?, ptr: array?<Symbol>, k: nat)
    requires Valid(U) && file in U && main in U && Outcome(U, symbol, main, file, src, j)
    modifies U`checked, U`merged, U`defs, U`ndefs, src.defs
    ensures Valid(U) && Outcome(U, symbol, main, file, srcfile, k) && (srcfile != null ==> srcfile in U && srcfile.defs != null)
    ensures Kept(old(GraphOf(U)), GraphOf(U), symbol)
    ensures Fewer(GraphOf(U), old(GraphOf(U)), symbol)
    ensures forall f :: f in U ==> f.defs == null || f.defs == old(f.defs) || fresh(f.defs)
  {
    hide Sorted, SearchAll, Kept, Idle, OpenEdges, Holders, Remove, Visible, EntryOf, SameFiles, SameFlags, Names, GraphOf;
    assert WellFormed(GraphOf(U));
    hide Valid, WellFormed;
    ghost var g := GraphOf(U);
    EntryIndex(src, j, symbol, U);
    IdleStill(g, Remove(g, src, j));
    RemoveEntry(src, j, U);
    srcfile, ptr, k := IsDefined(symbol, main, file, U);
    OneRound(g, symbol, main, file, src, j, (GraphOf(U), Answer(srcfile, k)));
    if srcfile != null { EntryIndex(srcfile, k, symbol, U); }
  }

  lemma {:induction false} OneRound(g: Graph, s: string, main: IncludeFile, f: IncludeFile, srcfile: IncludeFile, k: nat, q: (Graph, Found))
    requires WellFormed(g) && f in g && main in g && Idle(g) && EntryOf(g, srcfile, k, s)
    requires q == SearchAll(Remove(g, srcfile, k), s, main, f)
    ensures Kept(g, q.0, s) && Idle(q.0)
    ensures Fewer(q.0, g, s)
    ensures q.1.At? ==> EntryOf(q.0, q.1.file, q.1.k, s)
    ensures q.1.NotFound? ==> s !in Names(q.0[main].table) && !Visible(q.0, s, f)
  {
    hide SearchAll, Kept, Idle, OpenEdges, Holders, Visible, SameFiles, SameFlags, Names, WellFormed;
    var m := Remove(g, srcfile, k);
    RemoveKeeps(g, srcfile, k, s);
    IdleStill(g, m);
    SearchAllProgress(m, s, main, f, q);
    KeptTransitive(g, m, q.0, s);
    FewerWithin(OpenEdges(q.0), OpenEdges(g));
    FewerWithin(Holders(m, s), Holders(g, s));
  }

  lemma {:induction false} FewerWithin<T>(a: set<T>, b: set<T>)
    ensures a <= b ==> |a| <= |b|
    ensures a < b ==> |a| < |b|
  {
    if a <= b {
      assert b == a + (b - a);
    }
  }

  /** The measure of undefine's loop: unmerged edges, then files that have the symbol. */
  ghost function EdgesLeft(g: Graph): nat {
    |OpenEdges(g)|
  }

  ghost function HoldersLeft(g: Graph, s: string): nat {
    |Holders(g, s)|
  }

  ghost predicate Fewer(h: Graph, g: Graph, s: string) {
    EdgesLeft(h) < EdgesLeft(g) || (EdgesLeft(h) == EdgesLeft(g) && HoldersLeft(h, s) < HoldersLeft(g, s))
  }

  lemma {:induction false} IdleStill(g: Graph, h: Graph)
    requires SameFlags(g, h) && Idle(g)
    ensures Idle(h)
  {
  }

  lemma {:induction false} FewerMeans(h: Graph, g: Graph, s: string)
    requires Fewer(h, g, s)
    ensures EdgesLeft(h) < EdgesLeft(g) || (EdgesLeft(h) == EdgesLeft(g) && HoldersLeft(h, s) < HoldersLeft(g, s))
  {
  }

  ghost predicate EntryOf(g: Graph, f: IncludeFile, k: nat, s: string) {
    f in g && k < |g[f].table| && g[f].table[k].name == s
  }

  lemma {:induction false} EntryIndex(f: IncludeFile, k: nat, s: string, U: set<IncludeFile>)
    requires Valid(U) && f in U && EntryOf(GraphOf(U), f, k, s)
    ensures k < f.ndefs && k < |GraphOf(U)[f].table| && GraphOf(U)[f].table[k].name == s
    ensures WellFormed(GraphOf(U)) && f.defs != null
  {
    assert GraphOf(U)[f] == ViewOf(f) && f.ValidTable();
  }
}
