/** fdefined, isdefined and undefine of makedepend's parse.c: a depth-first search over a possibly cyclic include
    graph, which merges tables and cuts edges while it searches. */
module DefinitionSearch {
  import opened SymbolTable
  import opened IncludeGraph

  // ----- a graph as a value -----

  /** The state of one file. */
  datatype View = View(list: seq<IncludeFile>, merged: seq<bool>, table: seq<Symbol>, checked: bool, finished: bool)

  type Graph = map<IncludeFile, View>

  /** Every file includes only files of the graph, and its table is sorted. */
  ghost predicate WellFormed(g: Graph) {
    forall f :: f in g ==>
      && |g[f].merged| == |g[f].list| && Sorted(g[f].table)
      && forall i :: 0 <= i < |g[f].list| ==> g[f].list[i] in g
  }

  /** The search changes neither the files nor who includes whom, nor any FINISHED flag. */
  ghost predicate SameFiles(g: Graph, h: Graph) {
    && h.Keys == g.Keys
    && forall f :: f in g ==> h[f].list == g[f].list && h[f].finished == g[f].finished
  }

  ghost predicate SameFlags(g: Graph, h: Graph) {
    SameFiles(g, h) && forall f :: f in g ==> h[f].checked == g[f].checked
  }

  ghost function Unchecked(g: Graph): set<IncludeFile> {
    set f | f in g && !g[f].checked
  }

  /** The index of the entry named s, or -1. */
  function IndexOf(t: seq<Symbol>, s: string): (k: int)
    ensures -1 <= k < |t| && (k >= 0 ==> t[k].name == s)
    ensures k < 0 <==> s !in Names(t)
    decreases |t|
  {
    if t == [] then -1
    else if t[|t| - 1].name == s then |t| - 1
    else
      assert forall i :: 0 <= i < |t| - 1 ==> t[..|t| - 1][i] == t[i];
      IndexOf(t[..|t| - 1], s)
  }

  datatype Found = NotFound | At(file: IncludeFile, k: nat)

  ghost function Mark(g: Graph, f: IncludeFile, checked: bool): (h: Graph)
    requires f in g && WellFormed(g)
    ensures WellFormed(h) && SameFiles(g, h)
  {
    g[f := g[f].(checked := checked)]
  }

  /** What fdefined does after searching the i-th file that f includes: a finished one is merged into f for good. */
  ghost function Absorb(g: Graph, f: IncludeFile, i: nat): (h: Graph)
    requires f in g && WellFormed(g) && i < |g[f].list|
    ensures WellFormed(h) && SameFlags(g, h)
  {
    var c := g[f].list[i];
    if !g[c].finished then g else
    MergeSorted(g[f].table, g[c].table);
    g[f := g[f].(table := Merge(g[f].table, g[c].table), merged := g[f].merged[i := true])]
  }

  /** fdefined: the graph it leaves, and what it found. */
  ghost function SearchFile(g: Graph, s: string, f: IncludeFile): (r: (Graph, Found))
    requires WellFormed(g) && f in g
    ensures WellFormed(r.0) && SameFlags(g, r.0)
    decreases Unchecked(g), 0, 1
  {
    if g[f].checked then (g, NotFound) else
    var k := IndexOf(g[f].table, s);
    if k >= 0 then (g, At(f, k)) else
    assert f in Unchecked(g) && f !in Unchecked(Mark(g, f, true));
    var (h, r) := SearchList(Mark(g, f, true), s, f, 0);
    (Mark(h, f, false), r)
  }

  /** The loop of fdefined from the i-th included file on. */
  ghost function SearchList(g: Graph, s: string, f: IncludeFile, i: nat): (r: (Graph, Found))
    requires WellFormed(g) && f in g && i <= |g[f].list|
    ensures WellFormed(r.0) && SameFlags(g, r.0)
    decreases Unchecked(g), |g[f].list| - i, 0
  {
    if i == |g[f].list| then (g, NotFound)
    else if g[f].merged[i] then SearchList(g, s, f, i + 1)
    else
      var (h, r) := SearchFile(g, s, g[f].list[i]);
      var h1 := Absorb(h, f, i);
      assert Unchecked(h1) == Unchecked(g);
      if r.At? then (h1, r) else SearchList(h1, s, f, i + 1)
  }

  // ----- what a search finds -----

  /** The files that f includes and has not merged. */
  ghost function Edges(v: View): set<IncludeFile> {
    set i | 0 <= i < |v.list| && i < |v.merged| && !v.merged[i] :: v.list[i]
  }

  /** f reaches t over n unmerged edges of g. */
  ghost predicate ReachesIn(g: Graph, f: IncludeFile, t: IncludeFile, n: nat) {
    f in g && if n == 0 then f == t else exists h :: h in Edges(g[f]) && ReachesIn(g, h, t, n - 1)
  }

  ghost predicate Reaches(g: Graph, f: IncludeFile, t: IncludeFile) {
    exists n: nat :: ReachesIn(g, f, t, n)
  }

  lemma {:induction false} ReachesOver(g: Graph, f: IncludeFile, h: IncludeFile, t: IncludeFile)
    requires f in g && h in Edges(g[f]) && Reaches(g, h, t)
    ensures Reaches(g, f, t)
  {
    var n: nat :| ReachesIn(g, h, t, n);
    assert ReachesIn(g, f, t, n + 1);
  }

  /** A set that contains f and is closed under the edges contains all that f reaches. */
  lemma {:induction false} ClosedContains(g: Graph, S: set<IncludeFile>, f: IncludeFile, t: IncludeFile, n: nat)
    requires ReachesIn(g, f, t, n) && f in S
    requires forall h :: h in S ==> h in g && Edges(g[h]) <= S
    ensures t in S
    decreases n
  {
    if n > 0 {
      var h :| h in Edges(g[f]) && ReachesIn(g, h, t, n - 1);
      ClosedContains(g, S, h, t, n - 1);
    }
  }

  /** Files being visited are left alone by the searches below them; the loop of f changes f itself. */
  lemma {:induction false} FileLeaves(g: Graph, s: string, f: IncludeFile)
    requires WellFormed(g) && f in g
    ensures forall x :: x in g && g[x].checked ==> SearchFile(g, s, f).0[x] == g[x]
    decreases Unchecked(g), 0, 1
  {
    if !g[f].checked && IndexOf(g[f].table, s) < 0 {
      assert f in Unchecked(g) && f !in Unchecked(Mark(g, f, true));
      ListLeaves(Mark(g, f, true), s, f, 0);
    }
  }

  lemma {:induction false} ListLeaves(g: Graph, s: string, f: IncludeFile, i: nat)
    requires WellFormed(g) && f in g && i <= |g[f].list|
    ensures forall x :: x in g && g[x].checked && x != f ==> SearchList(g, s, f, i).0[x] == g[x]
    decreases Unchecked(g), |g[f].list| - i, 0
  {
    hide SearchFile, SearchList, Absorb, Sorted;
    if i == |g[f].list| {
      ListEnd(g, s, f);
    } else {
      ListStep(g, s, f, i);
      if g[f].merged[i] {
        ListLeaves(g, s, f, i + 1);
      } else {
        var (h, r) := SearchFile(g, s, g[f].list[i]);
        var h1 := Absorb(h, f, i);
        FileLeaves(g, s, g[f].list[i]);
        AbsorbLeaves(h, f, i);
        if r.NotFound? { ListLeaves(h1, s, f, i + 1); }
      }
    }
  }

  lemma {:induction false} AbsorbLeaves(g: Graph, f: IncludeFile, i: nat)
    requires f in g && WellFormed(g) && i < |g[f].list|
    ensures forall x :: x in g && x != f ==> Absorb(g, f, i)[x] == g[x]
  {
  }

  /** A search that began in g0 and has come to g without finding s: `seen` are the files visited.  Files not seen
      are as they were; no file seen defines, or defined, s. */
  ghost predicate Searching(g0: Graph, g: Graph, s: string, seen: set<IncludeFile>) {
    && WellFormed(g0) && WellFormed(g) && SameFiles(g0, g) && seen <= g.Keys
    && (forall f :: f in g && g[f].checked ==> f in seen)
    && (forall f :: f in g && f !in seen ==> g[f].table == g0[f].table && g[f].merged == g0[f].merged)
    && (forall f :: f in seen ==> s !in Names(g[f].table) && s !in Names(g0[f].table))
    && (forall f :: f in g ==> Edges(g[f]) <= Edges(g0[f])) && CutSeen(g0, g, seen)
  }

  /** The edges cut so far lead to files that have been seen. */
  ghost predicate CutSeen(g0: Graph, g: Graph, seen: set<IncludeFile>) {
    forall f, i :: f in g && f in g0 && 0 <= i < |g[f].merged| && i < |g0[f].merged| && i < |g[f].list| ==>
      (g0[f].merged[i] ==> g[f].merged[i]) && (g[f].merged[i] && !g0[f].merged[i] ==> g[f].list[i] in seen)
  }

  /** Every file newly seen has all its edges inside the files seen. */
  ghost predicate Closed(g0: Graph, before: set<IncludeFile>, seen: set<IncludeFile>) {
    before <= seen && forall f :: f in seen && f !in before && f in g0 ==> Edges(g0[f]) <= seen
  }

  /** The entry found is one of s, in the table of a file not being visited, reached from f, that has that table all along. */
  ghost predicate FoundAt(g0: Graph, g: Graph, h: Graph, s: string, f: IncludeFile, r: Found) {
    && r.At? && r.file in h && r.file in g && r.file in g0 && !g[r.file].checked
    && r.k < |h[r.file].table| && h[r.file].table[r.k].name == s
    && s in Names(g0[r.file].table) && h[r.file].table == g0[r.file].table && Reaches(g0, f, r.file)
  }

  /** The files newly seen are reached from f.  If every file seen but f is finished, or was being visited, their names
      have all come into the table of f. */
  ghost predicate Collected(g0: Graph, g: Graph, h: Graph, f: IncludeFile, seen: set<IncludeFile>, seen': set<IncludeFile>) {
    && f in h && (forall y :: y in seen' && y !in seen ==> y in g0 && Reaches(g0, f, y))
    && (AllFinished(g, f, seen') ==> forall y :: y in seen' && y !in seen ==> y in g0 && Names(g0[y].table) <= Names(h[f].table))
  }

  ghost predicate AllFinished(g: Graph, f: IncludeFile, seen: set<IncludeFile>) {
    forall z :: z in seen && z != f ==> z in g && (g[z].checked || g[z].finished)
  }

  lemma {:induction false} CollectedNone(g0: Graph, g: Graph, f: IncludeFile, seen: set<IncludeFile>)
    requires f in g
    ensures Collected(g0, g, g, f, seen, seen)
  {
  }

  /** What the loop of f has collected, and the names of f itself. */
  lemma {:induction false} CollectedFile(g0: Graph, g: Graph, s: string, f: IncludeFile, seen: set<IncludeFile>, seen': set<IncludeFile>, h: Graph)
    requires Searching(g0, g, s, seen) && f in g && f in h && Names(g[f].table) <= Names(h[f].table)
    requires Collected(g0, Mark(g, f, true), h, f, seen + {f}, seen')
    ensures Collected(g0, g, h, f, seen, seen')
  {
    assert ReachesIn(g0, f, f, 0);
  }

  /** What was collected below the i-th included file c, and then by the rest of the loop. */
  lemma {:induction false} CollectedNext(g0: Graph, g: Graph, h: Graph, s: string, f: IncludeFile, i: nat, seen: set<IncludeFile>, seen1: set<IncludeFile>, seen': set<IncludeFile>, k: Graph)
    requires Searching(g0, g, s, seen) && f in g && g[f].checked && WellFormed(h) && SameFlags(g, h)
    requires i < |g[f].list| && !g[f].merged[i] && g[f].list[i] in seen1 && seen1 <= seen'
    requires Collected(g0, g, h, g[f].list[i], seen, seen1) && (g[g[f].list[i]].checked ==> seen1 == seen)
    requires Collected(g0, Absorb(h, f, i), k, f, seen1, seen') && Names(Absorb(h, f, i)[f].table) <= Names(k[f].table)
    ensures Collected(g0, g, k, f, seen, seen')
  {
    hide Reaches, Searching, Sorted, Merge, Names;
    var c := g[f].list[i];
    assert c in Edges(g0[f]) by { InEdges(g0, g, s, seen, f, i); }
    forall y | y in seen' && y !in seen ensures y in g0 && Reaches(g0, f, y) {
      if y in seen1 { ReachesOver(g0, f, c, y); }
    }
    if AllFinished(g, f, seen') && !g[c].checked {
      AbsorbTakes(h, f, i);
    }
  }

  lemma {:induction false} InEdges(g0: Graph, g: Graph, s: string, seen: set<IncludeFile>, f: IncludeFile, i: nat)
    requires Searching(g0, g, s, seen) && f in g && i < |g[f].list| && !g[f].merged[i]
    ensures f in g0 && g[f].list[i] in Edges(g0[f])
  {
    assert g[f].list[i] in Edges(g[f]);
  }

  lemma {:induction false} AbsorbTakes(g: Graph, f: IncludeFile, i: nat)
    requires f in g && WellFormed(g) && i < |g[f].list| && g[g[f].list[i]].finished
    ensures Names(Absorb(g, f, i)[f].table) == Names(g[f].table) + Names(g[g[f].list[i]].table)
  {
    MergeEntries(g[f].table, g[g[f].list[i]].table);
  }

  /** In the merged table a name has the entry of the file that was merged, if that has one, and otherwise keeps its own. */
  lemma {:induction false} AbsorbEntries(g: Graph, f: IncludeFile, i: nat, e: Symbol)
    requires WellFormed(g) && f in g && i < |g[f].list| && g[g[f].list[i]].finished && e in Absorb(g, f, i)[f].table
    ensures e in g[g[f].list[i]].table || (e in g[f].table && e.name !in Names(g[g[f].list[i]].table))
    ensures Names(Absorb(g, f, i)[f].table) == Names(g[f].table) + Names(g[g[f].list[i]].table)
  {
    hide Sorted, Names;
    MergeEntries(g[f].table, g[g[f].list[i]].table);
  }

  lemma {:induction false} MarkSearching(g0: Graph, g: Graph, s: string, seen: set<IncludeFile>, f: IncludeFile, checked: bool)
    requires Searching(g0, g, s, seen) && f in seen
    ensures Searching(g0, Mark(g, f, checked), s, seen)
  {
  }

  /** A file that is visited and does not define s. */
  lemma {:induction false} SeeFile(g0: Graph, g: Graph, s: string, seen: set<IncludeFile>, f: IncludeFile)
    requires Searching(g0, g, s, seen) && f in g && s !in Names(g[f].table)
    ensures Searching(g0, g, s, seen + {f})
  {
  }

  lemma {:induction false} AbsorbSearching(g0: Graph, g: Graph, s: string, seen: set<IncludeFile>, f: IncludeFile, i: nat)
    requires Searching(g0, g, s, seen) && f in seen && i < |g[f].list| && g[f].list[i] in seen
    ensures Searching(g0, Absorb(g, f, i), s, seen)
  {
    hide Absorb, CutSeen, Names, Sorted, Edges, Merge;
    var c := g[f].list[i];
    if g[c].finished {
      AbsorbTakes(g, f, i);
      AbsorbCutSeen(g0, g, seen, f, i);
      AbsorbFrame(g, f, i);
    }
    AbsorbNothing(g, f, i);
  }

  lemma {:induction false} AbsorbFrame(g: Graph, f: IncludeFile, i: nat)
    requires WellFormed(g) && f in g && i < |g[f].list|
    ensures var h := Absorb(g, f, i);
            Edges(h[f]) <= Edges(g[f]) && h[f].checked == g[f].checked && forall x :: x in g && x != f ==> h[x] == g[x]
  {
    hide Merge, Sorted;
  }

  lemma {:induction false} AbsorbNothing(g: Graph, f: IncludeFile, i: nat)
    requires WellFormed(g) && f in g && i < |g[f].list|
    ensures !g[g[f].list[i]].finished ==> Absorb(g, f, i) == g
  {
  }

  lemma {:induction false} AbsorbCutSeen(g0: Graph, g: Graph, seen: set<IncludeFile>, f: IncludeFile, i: nat)
    requires CutSeen(g0, g, seen) && WellFormed(g) && f in g && i < |g[f].list| && g[f].list[i] in seen
    ensures CutSeen(g0, Absorb(g, f, i), seen)
  {
    hide Sorted, Merge;
  }

  /** What fdefined(f) achieves: f and all below it have been seen, or the symbol has been found. */
  ghost predicate Explored(g0: Graph, g: Graph, s: string, f: IncludeFile, seen: set<IncludeFile>, seen': set<IncludeFile>, q: (Graph, Found)) {
    if q.1.NotFound? then
      && Searching(g0, q.0, s, seen') && Closed(g0, seen, seen') && f in seen'
      && f in g && Collected(g0, g, q.0, f, seen, seen') && (g[f].checked ==> seen' == seen)
    else FoundAt(g0, g, q.0, s, f, q.1)
  }

  lemma {:induction false} FileSearch(g0: Graph, g: Graph, s: string, f: IncludeFile, seen: set<IncludeFile>, q: (Graph, Found)) returns (seen': set<IncludeFile>)
    requires Searching(g0, g, s, seen) && f in g && q == SearchFile(g, s, f)
    ensures Explored(g0, g, s, f, seen, seen', q)
    decreases Unchecked(g), 0, 1
  {
    hide Searching, Closed, Collected, FoundAt, SearchList, Swept, Explored, Names, Sorted;
    seen' := seen;
    FilesOf(g0, g, s, seen);
    if g[f].checked || IndexOf(g[f].table, s) >= 0 {
      FileAtOnce(g0, g, s, f, seen, q);
    } else {
      var m := Mark(g, f, true);
      MarkLess(g, f);
      hide Mark, Unchecked;
      FileEntered(g0, g, s, f, seen);
      seen' := ListSearch(g0, m, s, f, 0, seen + {f}, SearchList(m, s, f, 0));
      FileLeft(g0, g, s, f, seen, seen', SearchList(m, s, f, 0));
    }
  }

  lemma {:induction false} MarkLess(g: Graph, f: IncludeFile)
    requires WellFormed(g) && f in g && !g[f].checked
    ensures Unchecked(Mark(g, f, true)) < Unchecked(g) && Mark(g, f, true)[f] == g[f].(checked := true)
  {
    assert f in Unchecked(g) && f !in Unchecked(Mark(g, f, true));
  }

  lemma {:induction false} FileAtOnce(g0: Graph, g: Graph, s: string, f: IncludeFile, seen: set<IncludeFile>, q: (Graph, Found))
    requires Searching(g0, g, s, seen) && f in g && q == SearchFile(g, s, f) && (g[f].checked || IndexOf(g[f].table, s) >= 0)
    ensures Explored(g0, g, s, f, seen, seen, q)
  {
    assert ReachesIn(g0, f, f, 0);
    CollectedNone(g0, g, f, seen);
  }

  lemma {:induction false} FileEntered(g0: Graph, g: Graph, s: string, f: IncludeFile, seen: set<IncludeFile>)
    requires Searching(g0, g, s, seen) && f in g && s !in Names(g[f].table)
    ensures WellFormed(g) && Searching(g0, Mark(g, f, true), s, seen + {f})
  {
    SeeFile(g0, g, s, seen, f);
    MarkSearching(g0, g, s, seen + {f}, f, true);
  }

  lemma {:induction false} FileLeft(g0: Graph, g: Graph, s: string, f: IncludeFile, seen: set<IncludeFile>, seen': set<IncludeFile>, q: (Graph, Found))
    requires Searching(g0, g, s, seen) && f in g && !g[f].checked && q == SearchList(Mark(g, f, true), s, f, 0)
    requires Swept(g0, Mark(g, f, true), s, f, 0, seen + {f}, seen', q)
    ensures Explored(g0, g, s, f, seen, seen', (Mark(q.0, f, false), q.1))
  {
    hide SearchList, Searching, Reaches, Collected, Sorted, Names;
    var m := Mark(g, f, true);
    assert WellFormed(g) && g0.Keys == g.Keys by { FilesOf(g0, g, s, seen); }
    if q.1.NotFound? {
      MarkSearching(g0, q.0, s, seen', f, false);
      ListGrows(m, s, f, q);
      CollectedFile(g0, g, s, f, seen, seen', q.0);
      CollectedMark(g0, g, q.0, f, seen, seen');
      if f !in seen {
        AllEdges(g[f], seen');
        Unseen(g0, g, s, seen, f);
      }
    }
  }

  lemma {:induction false} FilesOf(g0: Graph, g: Graph, s: string, seen: set<IncludeFile>)
    requires Searching(g0, g, s, seen)
    ensures WellFormed(g0) && WellFormed(g) && g0.Keys == g.Keys
  {
  }

  lemma {:induction false} Unseen(g0: Graph, g: Graph, s: string, seen: set<IncludeFile>, f: IncludeFile)
    requires Searching(g0, g, s, seen) && f in g && f !in seen
    ensures Edges(g0[f]) == Edges(g[f])
  {
  }

  lemma {:induction false} ListGrows(g: Graph, s: string, f: IncludeFile, q: (Graph, Found))
    requires WellFormed(g) && f in g && g[f].checked && q == SearchList(g, s, f, 0)
    ensures f in q.0 && Names(g[f].table) <= Names(q.0[f].table)
  {
    hide SearchList;
    ListProgress(g, s, f, 0, q);
  }

  lemma {:induction false} CollectedMark(g0: Graph, g: Graph, h: Graph, f: IncludeFile, seen: set<IncludeFile>, seen': set<IncludeFile>)
    requires Collected(g0, g, h, f, seen, seen') && f in h && WellFormed(h)
    ensures Collected(g0, g, Mark(h, f, false), f, seen, seen')
  {
    hide Reaches;
  }

  /** A find in an included file is a find from f, and absorbing that file does not disturb it. */
  lemma {:induction false} FoundBelow(g0: Graph, g: Graph, h: Graph, s: string, f: IncludeFile, i: nat, seen: set<IncludeFile>, r: Found)
    requires Searching(g0, g, s, seen) && f in g && g[f].checked && WellFormed(h) && SameFlags(g, h)
    requires i < |g[f].list| && !g[f].merged[i] && FoundAt(g0, g, h, s, g[f].list[i], r)
    ensures FoundAt(g0, g, Absorb(h, f, i), s, f, r)
  {
    hide Reaches, Merge, Sorted;
    assert g[f].list[i] in Edges(g[f]);
    ReachesOver(g0, f, g[f].list[i], r.file);
  }

  lemma {:induction false} ClosedStep(g0: Graph, a: set<IncludeFile>, b: set<IncludeFile>, c: set<IncludeFile>)
    requires Closed(g0, a, b) && Closed(g0, b, c)
    ensures Closed(g0, a, c)
  {
  }

  lemma {:induction false} ListEnd(g: Graph, s: string, f: IncludeFile)
    requires WellFormed(g) && f in g
    ensures SearchList(g, s, f, |g[f].list|) == (g, NotFound)
  {
  }

  lemma {:induction false} ListStep(g: Graph, s: string, f: IncludeFile, i: nat)
    requires WellFormed(g) && f in g && i < |g[f].list|
    ensures g[f].merged[i] ==> SearchList(g, s, f, i) == SearchList(g, s, f, i + 1)
    ensures !g[f].merged[i] ==>
              var (h, r) := SearchFile(g, s, g[f].list[i]);
              var h1 := Absorb(h, f, i);
              Unchecked(h1) == Unchecked(g) && SameFlags(g, h1)
              && SearchList(g, s, f, i) == if r.At? then (h1, r) else SearchList(h1, s, f, i + 1)
  {
    hide SearchFile, Absorb;
    if !g[f].merged[i] {
      assert Unchecked(Absorb(SearchFile(g, s, g[f].list[i]).0, f, i)) == Unchecked(g);
    }
  }

  /** Absorbing the i-th file changes only f, and of its edges only the i-th. */
  lemma {:induction false} AbsorbOnly(g: Graph, h: Graph, s: string, f: IncludeFile, i: nat)
    requires WellFormed(g) && f in g && g[f].checked && i < |g[f].list| && h == SearchFile(g, s, g[f].list[i]).0
    ensures forall j :: 0 <= j < |g[f].list| && j != i ==> Absorb(h, f, i)[f].merged[j] == g[f].merged[j]
  {
    hide SearchFile, Merge, Sorted;
    FileLeaves(g, s, g[f].list[i]);
  }

  /** What the loop of f achieves from the i-th included file on: the files still unmerged have been seen, or
      the symbol has been found below one of them. */
  ghost predicate Swept(g0: Graph, g: Graph, s: string, f: IncludeFile, i: nat, seen: set<IncludeFile>, seen': set<IncludeFile>, q: (Graph, Found))
    requires f in g && |g[f].merged| == |g[f].list|
  {
    if q.1.NotFound? then
      && Searching(g0, q.0, s, seen') && Closed(g0, seen, seen') && Collected(g0, g, q.0, f, seen, seen')
      && forall j :: i <= j < |g[f].list| && !g[f].merged[j] ==> g[f].list[j] in seen'
    else FoundAt(g0, g, q.0, s, f, q.1)
  }

  lemma {:induction false} SweptSkip(g0: Graph, g: Graph, s: string, f: IncludeFile, i: nat, seen: set<IncludeFile>, seen': set<IncludeFile>, q: (Graph, Found))
    requires f in g && |g[f].merged| == |g[f].list| && i < |g[f].list| && g[f].merged[i]
    requires Swept(g0, g, s, f, i + 1, seen, seen', q)
    ensures Swept(g0, g, s, f, i, seen, seen', q)
  {
    hide Searching, Closed, FoundAt, Collected;
  }

  lemma {:induction false} SweptNone(g0: Graph, g: Graph, s: string, f: IncludeFile, seen: set<IncludeFile>)
    requires WellFormed(g) && f in g && Searching(g0, g, s, seen)
    ensures Swept(g0, g, s, f, |g[f].list|, seen, seen, (g, NotFound))
  {
    hide Searching;
    CollectedNone(g0, g, f, seen);
    hide Collected;
  }

  lemma {:induction false} SweptOne(g0: Graph, g: Graph, h1: Graph, s: string, f: IncludeFile, i: nat, seen: set<IncludeFile>, seen1: set<IncludeFile>, seen': set<IncludeFile>, q: (Graph, Found))
    requires WellFormed(g) && WellFormed(h1) && f in g && i < |g[f].list| && SameFlags(g, h1) && g[f].list[i] in seen1
    requires forall j :: 0 <= j < |g[f].list| && j != i ==> h1[f].merged[j] == g[f].merged[j]
    requires Swept(g0, h1, s, f, i + 1, seen1, seen', q) && Closed(g0, seen, seen1)
    requires q.1.NotFound? ==> Collected(g0, g, q.0, f, seen, seen')
    ensures Swept(g0, g, s, f, i, seen, seen', q)
  {
    hide Searching, Reaches, Sorted, Collected;
    if q.1.NotFound? { ClosedStep(g0, seen, seen1, seen'); }
  }

  lemma {:induction false} ListSearch(g0: Graph, g: Graph, s: string, f: IncludeFile, i: nat, seen: set<IncludeFile>, q: (Graph, Found)) returns (seen': set<IncludeFile>)
    requires WellFormed(g) && f in g && Searching(g0, g, s, seen) && f in seen && g[f].checked && i <= |g[f].list|
    requires q == SearchList(g, s, f, i)
    ensures Swept(g0, g, s, f, i, seen, seen', q)
    decreases Unchecked(g), |g[f].list| - i, 2
  {
    hide *;
    ListSizes(g, f);
    if i == |g[f].list| {
      ListEnd(g, s, f);
      SweptNone(g0, g, s, f, seen);
      seen' := seen;
    } else if g[f].merged[i] {
      ListStep(g, s, f, i);
      seen' := ListSearch(g0, g, s, f, i + 1, seen, q);
      SweptSkip(g0, g, s, f, i, seen, seen', q);
    } else {
      seen' := ListBranch(g0, g, s, f, i, seen, q);
    }
  }

  lemma {:induction false} ListSizes(g: Graph, f: IncludeFile)
    requires WellFormed(g) && f in g
    ensures |g[f].merged| == |g[f].list|
  {
  }

  lemma {:induction false} ListBranch(g0: Graph, g: Graph, s: string, f: IncludeFile, i: nat, seen: set<IncludeFile>, q: (Graph, Found)) returns (seen': set<IncludeFile>)
    requires Searching(g0, g, s, seen) && f in seen && g[f].checked && i < |g[f].list| && !g[f].merged[i]
    requires q == SearchList(g, s, f, i)
    ensures Swept(g0, g, s, f, i, seen, seen', q)
    decreases Unchecked(g), |g[f].list| - i, 1
  {
    hide SearchFile, SearchList, Explored, Swept;
    var seen1 := FileSearch(g0, g, s, g[f].list[i], seen, SearchFile(g, s, g[f].list[i]));
    seen' := ListRest(g0, g, s, f, i, seen, seen1, q);
  }

  lemma {:induction false} ListRest(g0: Graph, g: Graph, s: string, f: IncludeFile, i: nat, seen: set<IncludeFile>, seen1: set<IncludeFile>, q: (Graph, Found)) returns (seen': set<IncludeFile>)
    requires Searching(g0, g, s, seen) && f in seen && g[f].checked && i < |g[f].list| && !g[f].merged[i]
    requires q == SearchList(g, s, f, i)
    requires Explored(g0, g, s, g[f].list[i], seen, seen1, SearchFile(g, s, g[f].list[i]))
    ensures Swept(g0, g, s, f, i, seen, seen', q)
    decreases Unchecked(g), |g[f].list| - i, 0
  {
    hide SearchFile, SearchList, Absorb, Edges, Merge, Sorted, Names, Reaches, Collected;
    var (h, r) := SearchFile(g, s, g[f].list[i]);
    var h1 := Absorb(h, f, i);
    assert WellFormed(g) && f in g;
    ListStep(g, s, f, i);
    seen' := seen1;
    if r.At? {
      FoundBelow(g0, g, h, s, f, i, seen, r);
    } else {
      AbsorbSearching(g0, h, s, seen1, f, i);
      AbsorbOnly(g, h, s, f, i);
      seen' := ListSearch(g0, h1, s, f, i + 1, seen1, q);
      if q.1.NotFound? { SweptMore(g0, g, h, s, f, i, seen, seen1, seen', q); }
      SweptOne(g0, g, h1, s, f, i, seen, seen1, seen', q);
    }
  }

  lemma {:induction false} SweptMore(g0: Graph, g: Graph, h: Graph, s: string, f: IncludeFile, i: nat, seen: set<IncludeFile>, seen1: set<IncludeFile>, seen': set<IncludeFile>, q: (Graph, Found))
    requires Searching(g0, g, s, seen) && f in g && g[f].checked && WellFormed(h) && SameFlags(g, h)
    requires i < |g[f].list| && !g[f].merged[i] && q.1.NotFound?
    requires Explored(g0, g, s, g[f].list[i], seen, seen1, (h, NotFound))
    requires Swept(g0, Absorb(h, f, i), s, f, i + 1, seen1, seen', q) && q == SearchList(Absorb(h, f, i), s, f, i + 1)
    ensures Collected(g0, g, q.0, f, seen, seen')
  {
    hide SearchList, Collected, Searching, Absorb, Sorted, Names, Reaches;
    ListProgress(Absorb(h, f, i), s, f, i + 1, q);
    CollectedNext(g0, g, h, s, f, i, seen, seen1, seen', q.0);
  }

  lemma {:induction false} AllEdges(v: View, seen: set<IncludeFile>)
    requires forall j :: 0 <= j < |v.list| && j < |v.merged| && !v.merged[j] ==> v.list[j] in seen
    ensures Edges(v) <= seen
  {
  }

  // ----- what a search changes -----

  ghost function OpenEdges(g: Graph): set<(IncludeFile, int)> {
    set f, i | f in g && 0 <= i < |g[f].merged| && !g[f].merged[i] :: (f, i)
  }

  /** A search only cuts edges; tables only gain names, and only names other tables have; and tables change
      only when an edge is cut. */
  ghost predicate Progress(g: Graph, h: Graph) {
    && SameFiles(g, h)
    && OpenEdges(h) <= OpenEdges(g)
    && (forall f :: f in g ==> Names(g[f].table) <= Names(h[f].table) <= AllNames(g))
    && (OpenEdges(h) == OpenEdges(g) ==> forall f :: f in g ==> h[f].table == g[f].table && h[f].merged == g[f].merged)
  }

  ghost function AllNames(g: Graph): set<string> {
    set f, n | f in g && n in Names(g[f].table) :: n
  }

  lemma {:induction false} ProgressTransitive(g: Graph, h: Graph, k: Graph)
    requires Progress(g, h) && Progress(h, k)
    ensures Progress(g, k)
  {
    forall n | n in AllNames(h) ensures n in AllNames(g) {
      var f :| f in h && n in Names(h[f].table);
      assert n in AllNames(g);
    }
  }

  lemma {:induction false} MarkProgress(g: Graph, f: IncludeFile, checked: bool)
    requires f in g && WellFormed(g)
    ensures Progress(g, Mark(g, f, checked))
  {
  }

  lemma {:induction false} AbsorbProgress(g: Graph, f: IncludeFile, i: nat)
    requires f in g && WellFormed(g) && i < |g[f].list| && !g[f].merged[i]
    ensures Progress(g, Absorb(g, f, i))
  {
    var c := g[f].list[i];
    var h := Absorb(g, f, i);
    if g[c].finished {
      MergeEntries(g[f].table, g[c].table);
      assert (f, i) in OpenEdges(g) && (f, i) !in OpenEdges(h);
    }
  }

  lemma {:induction false} FileProgress(g: Graph, s: string, f: IncludeFile, q: (Graph, Found))
    requires WellFormed(g) && f in g && q == SearchFile(g, s, f)
    ensures Progress(g, q.0)
    decreases Unchecked(g), 0, 1
  {
    hide Progress, SearchList, OpenEdges, AllNames;
    ProgressNone(g);
    if !g[f].checked && IndexOf(g[f].table, s) < 0 {
      var m := Mark(g, f, true);
      assert f in Unchecked(g) && f !in Unchecked(m);
      var h := SearchList(m, s, f, 0);
      MarkProgress(g, f, true);
      ListProgress(m, s, f, 0, h);
      MarkProgress(h.0, f, false);
      ProgressTransitive(g, m, h.0);
      ProgressTransitive(g, h.0, q.0);
    }
  }

  lemma {:induction false} ProgressNone(g: Graph)
    ensures Progress(g, g)
  {
  }

  lemma {:induction false} ListProgress(g: Graph, s: string, f: IncludeFile, i: nat, q: (Graph, Found))
    requires WellFormed(g) && f in g && g[f].checked && i <= |g[f].list| && q == SearchList(g, s, f, i)
    ensures Progress(g, q.0)
    decreases Unchecked(g), |g[f].list| - i, 0
  {
    hide Progress, SearchFile, SearchList, OpenEdges, AllNames, Absorb;
    if i == |g[f].list| {
      ListEnd(g, s, f);
      ProgressNone(g);
    } else {
      ListStep(g, s, f, i);
      if g[f].merged[i] {
        ListProgress(g, s, f, i + 1, q);
      } else {
        var h := SearchFile(g, s, g[f].list[i]);
        FileProgress(g, s, g[f].list[i], h);
        FileLeaves(g, s, g[f].list[i]);
        AbsorbProgress(h.0, f, i);
        ProgressTransitive(g, h.0, Absorb(h.0, f, i));
        if h.1.NotFound? {
          ListProgress(Absorb(h.0, f, i), s, f, i + 1, q);
          ProgressTransitive(g, Absorb(h.0, f, i), q.0);
        }
      }
    }
  }

  // ----- fdefined, exactly -----

  /** No file is being visited. */
  ghost predicate Idle(g: Graph) {
    forall f :: f in g ==> !g[f].checked
  }

  /** Some file that f reaches defines s. */
  ghost predicate Visible(g: Graph, s: string, f: IncludeFile) {
    exists t :: t in g && Reaches(g, f, t) && s in Names(g[t].table)
  }

  lemma {:induction false} ReachesMore(g: Graph, h: Graph, f: IncludeFile, t: IncludeFile, n: nat)
    requires SameFiles(g, h) && ReachesIn(h, f, t, n)
    requires forall x :: x in g ==> Edges(h[x]) <= Edges(g[x])
    ensures ReachesIn(g, f, t, n)
  {
    if n > 0 {
      var x :| x in Edges(h[f]) && ReachesIn(h, x, t, n - 1);
      ReachesMore(g, h, x, t, n - 1);
    }
  }

  /** Started with no file on the stack, fdefined finds a symbol exactly when some file that f reached over the edges
      unmerged at the start defined it then - on cyclic graphs too, and although tables are merged and edges cut on
      the way.  What it returns is an entry of the symbol in the table that file has when the search is over. */
  lemma {:induction false} SearchIsExact(g: Graph, s: string, f: IncludeFile)
    requires WellFormed(g) && Idle(g) && f in g
    ensures var (h, r) := SearchFile(g, s, f);
            && Idle(h)
            && (r.At? <==> Visible(g, s, f))
            && (r.NotFound? ==> !Visible(h, s, f)
                                && forall t :: t in g && s !in Names(g[t].table) ==> s !in Names(h[t].table))
            && (r.At? ==> r.file in g && Reaches(g, f, r.file) && s in Names(g[r.file].table)
                          && r.k < |h[r.file].table| && h[r.file].table[r.k].name == s && h[r.file].table == g[r.file].table)
  {
    hide SearchFile;
    var seen := FileSearch(g, g, s, f, {}, SearchFile(g, s, f));
    if SearchFile(g, s, f).1.NotFound? {
      forall t | t in g && Reaches(g, f, t) ensures s !in Names(g[t].table) {
        var n: nat :| ReachesIn(g, f, t, n);
        ClosedContains(g, seen, f, t, n);
      }
      var h := SearchFile(g, s, f).0;
      forall t | t in h && Reaches(h, f, t) ensures s !in Names(h[t].table) {
        var n: nat :| ReachesIn(h, f, t, n);
        ReachesMore(g, h, f, t, n);
        ClosedContains(g, seen, f, t, n);
      }
    }
  }

  // ----- what a merge hides -----

  /** The graph without the i-th edge of f. */
  ghost function Cut(g: Graph, f: IncludeFile, i: nat): (h: Graph)
    requires f in g && WellFormed(g) && i < |g[f].list|
    ensures WellFormed(h) && SameFiles(g, h)
  {
    g[f := g[f].(merged := g[f].merged[i := true])]
  }

  lemma {:induction false} CutEdges(g: Graph, f: IncludeFile, i: nat)
    requires WellFormed(g) && f in g && i < |g[f].list|
    ensures forall x :: x in g ==> Edges(Cut(g, f, i)[x]) <= Edges(g[x]) <= g.Keys
    ensures forall x, y :: x in g && y in Edges(g[x]) && (x != f || y != g[f].list[i]) ==> y in Edges(Cut(g, f, i)[x])
  {
    hide Sorted;
    var h := Cut(g, f, i);
    forall x, y | x in g && y in Edges(g[x]) && (x != f || y != g[f].list[i]) ensures y in Edges(h[x]) {
      var j :| 0 <= j < |g[x].list| && !g[x].merged[j] && g[x].list[j] == y;
      assert !h[x].merged[j] && h[x].list[j] == y;
    }
  }

  /** What a file reaches it reaches without the i-th edge of f, or the file behind that edge reaches it. */
  lemma {:induction false} ReachesAround(g: Graph, f: IncludeFile, i: nat, a: IncludeFile, t: IncludeFile, n: nat)
    requires WellFormed(g) && f in g && i < |g[f].list| && ReachesIn(g, a, t, n)
    ensures Reaches(Cut(g, f, i), a, t) || Reaches(g, g[f].list[i], t)
  {
    hide Sorted, Cut, WellFormed;
    var h, c := Cut(g, f, i), g[f].list[i];
    if n == 0 {
      assert ReachesIn(h, a, a, 0);
    } else {
      CutEdges(g, f, i);
      var x :| x in Edges(g[a]) && ReachesIn(g, x, t, n - 1);
      ReachesAround(g, f, i, x, t, n - 1);
      if a == f && x == c {
        assert Reaches(g, c, t);
      } else if Reaches(h, x, t) {
        ReachesOver(h, a, x, t);
      }
    }
  }

  /** f sees what it sees without an edge, and what the file behind the edge sees. */
  lemma {:induction false} VisibleAround(g: Graph, f: IncludeFile, i: nat, s: string)
    requires WellFormed(g) && f in g && i < |g[f].list| && !g[f].merged[i]
    ensures Visible(g, s, f) <==> Visible(Cut(g, f, i), s, f) || Visible(g, s, g[f].list[i])
  {
    var h, c := Cut(g, f, i), g[f].list[i];
    CutEdges(g, f, i);
    assert c in Edges(g[f]);
    assert forall t :: t in g ==> h[t].table == g[t].table;
    hide Cut, WellFormed, Sorted, Names, Edges;
    if Visible(g, s, f) {
      var t :| t in g && Reaches(g, f, t) && s in Names(g[t].table);
      var n: nat :| ReachesIn(g, f, t, n);
      ReachesAround(g, f, i, f, t, n);
    }
    if Visible(h, s, f) {
      var t :| t in h && Reaches(h, f, t) && s in Names(h[t].table);
      var n: nat :| ReachesIn(h, f, t, n);
      ReachesMore(g, h, f, t, n);
    }
    if Visible(g, s, c) {
      var t :| t in g && Reaches(g, c, t) && s in Names(g[t].table);
      ReachesOver(g, f, c, t);
    }
  }

  /** After a finished file c has been merged into f, f sees the names in the table of c, and what it sees without
      its edge to c. */
  lemma {:induction false} VisibleAfterMerge(g: Graph, f: IncludeFile, i: nat, s: string)
    requires WellFormed(g) && f in g && i < |g[f].list| && g[g[f].list[i]].finished
    ensures Visible(Absorb(g, f, i), s, f) <==> s in Names(g[g[f].list[i]].table) || Visible(Cut(g, f, i), s, f)
  {
    var h, k := Absorb(g, f, i), Cut(g, f, i);
    AbsorbTakes(g, f, i);
    AbsorbCuts(g, f, i);
    hide Absorb, Cut, WellFormed, Sorted, Names, Edges;
    assert ReachesIn(k, f, f, 0) && ReachesIn(h, f, f, 0);
    if Visible(h, s, f) {
      var t :| t in h && Reaches(h, f, t) && s in Names(h[t].table);
      var n: nat :| ReachesIn(h, f, t, n);
      ReachesMore(k, h, f, t, n);
    }
    if Visible(k, s, f) {
      var t :| t in k && Reaches(k, f, t) && s in Names(k[t].table);
      var n: nat :| ReachesIn(k, f, t, n);
      ReachesMore(h, k, f, t, n);
    }
  }

  lemma {:induction false} AbsorbCuts(g: Graph, f: IncludeFile, i: nat)
    requires WellFormed(g) && f in g && i < |g[f].list| && g[g[f].list[i]].finished
    ensures var h, k := Absorb(g, f, i), Cut(g, f, i);
            SameFiles(h, k) && forall t :: t in g ==> Edges(h[t]) == Edges(k[t]) && k[t].table == g[t].table && (t != f ==> h[t].table == g[t].table)
  {
    hide Sorted, Merge;
    var h, k := Absorb(g, f, i), Cut(g, f, i);
    assert h[f].merged == k[f].merged && h[f].list == k[f].list;
  }

  /** A merge hides a symbol exactly when f saw it only behind c, and c sees it without having it in its own table. */
  lemma {:induction false} MergeHidesIff(g: Graph, f: IncludeFile, i: nat, s: string)
    requires WellFormed(g) && f in g && i < |g[f].list| && !g[f].merged[i] && g[g[f].list[i]].finished
    ensures var c := g[f].list[i];
            Visible(g, s, f) && !Visible(Absorb(g, f, i), s, f) <==>
            Visible(g, s, c) && s !in Names(g[c].table) && !Visible(Cut(g, f, i), s, f)
    ensures Visible(Absorb(g, f, i), s, f) ==> Visible(g, s, f)
  {
    hide Absorb, Visible, Cut;
    VisibleAround(g, f, i, s);
    VisibleAfterMerge(g, f, i, s);
    if s in Names(g[g[f].list[i]].table) { OwnVisible(g, s, g[f].list[i]); }
  }

  lemma {:induction false} OwnVisible(g: Graph, s: string, f: IncludeFile)
    requires f in g && s in Names(g[f].table)
    ensures Visible(g, s, f)
  {
    assert ReachesIn(g, f, f, 0);
  }

  /** The merge is harmless when all edges of the merged file have been merged themselves. */
  lemma {:induction false} MergeKeepsVisible(g: Graph, f: IncludeFile, i: nat, s: string)
    requires WellFormed(g) && f in g && i < |g[f].list| && !g[f].merged[i]
    requires g[g[f].list[i]].finished && Edges(g[g[f].list[i]]) == {}
    ensures Visible(Absorb(g, f, i), s, f) <==> Visible(g, s, f)
  {
    var c := g[f].list[i];
    MergeHidesIff(g, f, i, s);
    hide Absorb, Cut;
    forall t, n: nat | ReachesIn(g, c, t, n) ensures t == c {
      ClosedContains(g, {c}, c, t, n);
    }
  }

  // ----- what a whole search hides -----

  /** The files of g are those of g0 with fewer edges, and what is in a table of g was visible from there in g0. */
  ghost predicate Honest(g0: Graph, g: Graph) {
    && WellFormed(g) && SameFiles(g0, g)
    && forall f :: f in g ==> Edges(g[f]) <= Edges(g0[f]) && forall x :: x in Names(g[f].table) ==> Visible(g0, x, f)
  }

  lemma {:induction false} HonestMark(g0: Graph, g: Graph, f: IncludeFile, checked: bool)
    requires Honest(g0, g) && f in g
    ensures Honest(g0, Mark(g, f, checked))
  {
    hide Sorted, Visible, Names;
  }

  lemma {:induction false} HonestAbsorb(g0: Graph, g: Graph, f: IncludeFile, i: nat)
    requires Honest(g0, g) && f in g && i < |g[f].list| && !g[f].merged[i]
    ensures Honest(g0, Absorb(g, f, i))
  {
    var c := g[f].list[i];
    if g[c].finished {
      AbsorbTakes(g, f, i);
      AbsorbCuts(g, f, i);
      CutEdges(g, f, i);
      assert c in Edges(g[f]);
      hide Absorb, Cut, Sorted, Reaches, Visible, Names, Edges;
      forall x | x in Names(Absorb(g, f, i)[f].table) ensures Visible(g0, x, f) {
        if x in Names(g[c].table) { VisibleOne(g0, f, c, x); }
      }
    }
  }

  lemma {:induction false} VisibleOne(g: Graph, f: IncludeFile, c: IncludeFile, x: string)
    requires f in g && c in Edges(g[f]) && Visible(g, x, c)
    ensures Visible(g, x, f)
  {
    hide Names, Edges;
    var t :| t in g && Reaches(g, c, t) && x in Names(g[t].table);
    ReachesOver(g, f, c, t);
  }

  lemma {:induction false} HonestFile(g0: Graph, g: Graph, s: string, f: IncludeFile)
    requires Honest(g0, g) && f in g
    ensures Honest(g0, SearchFile(g, s, f).0)
    decreases Unchecked(g), 0, 1
  {
    hide Honest, SearchList;
    HonestFiles(g0, g);
    if !g[f].checked && IndexOf(g[f].table, s) < 0 {
      MarkLess(g, f);
      HonestMark(g0, g, f, true);
      HonestList(g0, Mark(g, f, true), s, f, 0);
      HonestMark(g0, SearchList(Mark(g, f, true), s, f, 0).0, f, false);
    }
  }

  lemma {:induction false} HonestFiles(g0: Graph, g: Graph)
    requires Honest(g0, g)
    ensures WellFormed(g) && g.Keys == g0.Keys
  {
  }

  lemma {:induction false} HonestList(g0: Graph, g: Graph, s: string, f: IncludeFile, i: nat)
    requires Honest(g0, g) && WellFormed(g) && f in g && g[f].checked && i <= |g[f].list|
    ensures Honest(g0, SearchList(g, s, f, i).0)
    decreases Unchecked(g), |g[f].list| - i, 0
  {
    hide Honest, SearchFile, SearchList, Absorb, Unchecked, Sorted;
    if i == |g[f].list| {
      ListEnd(g, s, f);
    } else {
      ListStep(g, s, f, i);
      if g[f].merged[i] {
        HonestList(g0, g, s, f, i + 1);
      } else {
        var (h, r) := SearchFile(g, s, g[f].list[i]);
        HonestFile(g0, g, s, g[f].list[i]);
        FileLeaves(g, s, g[f].list[i]);
        HonestAbsorb(g0, h, f, i);
        if r.NotFound? { HonestList(g0, Absorb(h, f, i), s, f, i + 1); }
      }
    }
  }

  /** Whatever a search finds, no file sees more after it than before. */
  lemma {:induction false} SearchShowsNothingNew(g: Graph, s: string, f: IncludeFile, v: IncludeFile, x: string)
    requires WellFormed(g) && f in g && Visible(SearchFile(g, s, f).0, x, v)
    ensures Visible(g, x, v)
  {
    hide SearchFile, Honest, Visible;
    HonestSelf(g);
    HonestFile(g, g, s, f);
    HonestShows(g, SearchFile(g, s, f).0, v, x);
  }

  lemma {:induction false} HonestSelf(g: Graph)
    requires WellFormed(g)
    ensures Honest(g, g)
  {
    hide Sorted, Names;
    forall t, y | t in g && y in Names(g[t].table) ensures Visible(g, y, t) { OwnVisible(g, y, t); }
  }

  lemma {:induction false} HonestShows(g0: Graph, g: Graph, v: IncludeFile, x: string)
    requires Honest(g0, g) && Visible(g, x, v)
    ensures Visible(g0, x, v)
  {
    hide WellFormed, Names, Edges;
    var t :| t in g && Reaches(g, v, t) && x in Names(g[t].table);
    var n: nat :| ReachesIn(g, v, t, n);
    ReachesMore(g0, g, v, t, n);
    VisibleOver(g0, v, t, x);
  }

  lemma {:induction false} VisibleOver(g: Graph, v: IncludeFile, t: IncludeFile, x: string)
    requires Reaches(g, v, t) && Visible(g, x, t)
    ensures Visible(g, x, v)
  {
    hide Names;
    var u :| u in g && Reaches(g, t, u) && x in Names(g[u].table);
    var m: nat, n: nat :| ReachesIn(g, v, t, m) && ReachesIn(g, t, u, n);
    ReachesJoin(g, v, t, u, m, n);
  }

  lemma {:induction false} ReachesJoin(g: Graph, v: IncludeFile, t: IncludeFile, u: IncludeFile, m: nat, n: nat)
    requires ReachesIn(g, v, t, m) && ReachesIn(g, t, u, n)
    ensures Reaches(g, v, u)
  {
    if m > 0 {
      var h :| h in Edges(g[v]) && ReachesIn(g, h, t, m - 1);
      ReachesJoin(g, h, t, u, m - 1, n);
      ReachesOver(g, v, h, u);
    }
  }

  /** A search that fails hides nothing when every file that f reaches, but f itself, has been read to its end: all that
      f saw is then in its own table. */
  lemma {:induction false} FailedSearchKeeps(g: Graph, s: string, f: IncludeFile, x: string)
    requires WellFormed(g) && Idle(g) && f in g && SearchFile(g, s, f).1.NotFound?
    requires forall t :: t in g && t != f && Reaches(g, f, t) ==> g[t].finished
    ensures var h := SearchFile(g, s, f).0;
            (Visible(h, x, f) <==> Visible(g, x, f)) && (x in Names(h[f].table) <==> Visible(g, x, f))
  {
    hide SearchFile, Sorted, Names, Reaches;
    var h := SearchFile(g, s, f).0;
    var seen := FileSearch(g, g, s, f, {}, SearchFile(g, s, f));
    if Visible(g, x, f) {
      var t :| t in g && Reaches(g, f, t) && x in Names(g[t].table);
      ClosedHas(g, seen, f, t);
      assert AllFinished(g, f, seen);
    }
    if x in Names(h[f].table) { OwnVisible(h, x, f); }
    if Visible(h, x, f) { SearchShowsNothingNew(g, s, f, f, x); }
  }

  lemma {:induction false} ClosedHas(g: Graph, seen: set<IncludeFile>, f: IncludeFile, t: IncludeFile)
    requires f in seen && seen <= g.Keys && Closed(g, {}, seen) && Reaches(g, f, t)
    ensures t in seen
  {
    var n: nat :| ReachesIn(g, f, t, n);
    ClosedContains(g, seen, f, t, n);
  }

  /** A file that has been read and has not been searched yet. */
  ghost function Read(list: seq<IncludeFile>, table: seq<Symbol>): View {
    View(list, seq(|list|, _ => false), table, false, true)
  }

  /** The graph where r includes a, a includes b and c, b defines q, c defines x, and all have been read. */
  ghost function Diamond(r: IncludeFile, a: IncludeFile, b: IncludeFile, c: IncludeFile, q: Symbol, x: Symbol): (g: Graph)
    requires r != a && r != b && r != c && a != b && a != c && b != c
    ensures WellFormed(g) && Idle(g) && g.Keys == {r, a, b, c}
  {
    map[r := Read([a], []), a := Read([b, c], []), b := Read([], [q]), c := Read([], [x])]
  }

  lemma {:induction false} DiamondSearch(r: IncludeFile, a: IncludeFile, b: IncludeFile, c: IncludeFile, q: Symbol, x: Symbol)
    requires r != a && r != b && r != c && a != b && a != c && b != c
    ensures var (h, found) := SearchFile(Diamond(r, a, b, c, q, x), q.name, r);
            found == At(b, 0) && h[r] == View([a], [true], [q], false, true)
  {
    var g := Diamond(r, a, b, c, q, x);
    var g1 := Mark(g, r, true);
    var g2 := Mark(g1, a, true);
    IndexOfOne(q);
    hide Sorted, Names, Edges;
    assert SearchFile(g2, q.name, b) == (g2, At(b, 0));
    var g3 := Absorb(g2, a, 0);
    assert g3[a].table == [q];
    assert SearchList(g2, q.name, a, 0) == (g3, At(b, 0));
    var g4 := Mark(g3, a, false);
    assert SearchFile(g1, q.name, a) == (g4, At(b, 0));
    var g5 := Absorb(g4, r, 0);
    assert g5[r].table == [q];
    assert SearchList(g1, q.name, r, 0) == (g5, At(b, 0));
  }

  lemma {:induction false} DiamondVisible(r: IncludeFile, a: IncludeFile, b: IncludeFile, c: IncludeFile, q: Symbol, x: Symbol)
    requires r != a && r != b && r != c && a != b && a != c && b != c
    ensures Visible(Diamond(r, a, b, c, q, x), x.name, r)
  {
    var g := Diamond(r, a, b, c, q, x);
    assert c in Edges(g[a]) && a in Edges(g[r]) by { assert g[a].list[1] == c && g[r].list[0] == a; }
    assert x.name in Names(g[c].table) by { assert [x][0] == x; }
    hide Diamond, Names, Edges;
    OwnVisible(g, x.name, c);
    VisibleOne(g, a, c, x.name);
    VisibleOne(g, r, a, x.name);
  }

  /** A search can hide a symbol: it stops at b, merges b into a and then a into r, and cuts r off from c. */
  lemma {:induction false} SearchHides(r: IncludeFile, a: IncludeFile, b: IncludeFile, c: IncludeFile, q: Symbol, x: Symbol)
    requires r != a && r != b && r != c && a != b && a != c && b != c && q.name != x.name
    ensures var g := Diamond(r, a, b, c, q, x);
            var (h, found) := SearchFile(g, q.name, r);
            found == At(b, 0) && Visible(g, x.name, r) && !Visible(h, x.name, r)
  {
    DiamondVisible(r, a, b, c, q, x);
    DiamondSearch(r, a, b, c, q, x);
    var g := Diamond(r, a, b, c, q, x);
    hide SearchFile, Diamond;
    var h := SearchFile(g, q.name, r).0;
    forall t, n: nat | ReachesIn(h, r, t, n) ensures t == r {
      ClosedContains(h, {r}, r, t, n);
    }
  }

  /** r includes a, a includes c, c defines x and is still being read. */
  ghost function Chain(r: IncludeFile, a: IncludeFile, c: IncludeFile, x: Symbol): (g: Graph)
    requires r != a && r != c && a != c
    ensures WellFormed(g) && Idle(g) && g.Keys == {r, a, c}
  {
    map[r := Read([a], []), a := Read([c], []), c := Read([], [x]).(finished := false)]
  }

  lemma {:induction false} LeafSearch(g: Graph, s: string, f: IncludeFile)
    requires WellFormed(g) && f in g && !g[f].checked && g[f].list == [] && s !in Names(g[f].table)
    ensures SearchFile(g, s, f) == (g, NotFound)
  {
    hide Sorted, Names;
    assert Mark(Mark(g, f, true), f, false) == g;
  }

  lemma {:induction false} OnlyChildSearch(g: Graph, s: string, f: IncludeFile, c: IncludeFile, h: Graph)
    requires WellFormed(g) && f in g && !g[f].checked && g[f].list == [c] && g[f].merged == [false] && s !in Names(g[f].table)
    requires c in g && WellFormed(h) && SameFlags(Mark(g, f, true), h) && SearchFile(Mark(g, f, true), s, c) == (h, NotFound)
    ensures SearchFile(g, s, f) == (Mark(Absorb(h, f, 0), f, false), NotFound)
  {
    hide Sorted, Names, Absorb;
    assert SearchList(Mark(g, f, true), s, f, 0) == (Absorb(h, f, 0), NotFound);
  }

  /** A search that fails can hide a symbol too, behind a file that is still being read: it merges a into r, but not c into a. */
  lemma {:induction false} FailedSearchHides(r: IncludeFile, a: IncludeFile, c: IncludeFile, x: Symbol, s: string)
    requires r != a && r != c && a != c && s != x.name
    ensures var g := Chain(r, a, c, x);
            SearchFile(g, s, r).1.NotFound? && Visible(g, x.name, r) && !Visible(SearchFile(g, s, r).0, x.name, r)
  {
    var g := Chain(r, a, c, x);
    ChainVisible(r, a, c, x);
    ChainSearch(r, a, c, x, s);
    hide SearchFile, Chain;
    var h := SearchFile(g, s, r).0;
    forall t, n: nat | ReachesIn(h, r, t, n) ensures t == r {
      ClosedContains(h, {r}, r, t, n);
    }
  }

  lemma {:induction false} ChainVisible(r: IncludeFile, a: IncludeFile, c: IncludeFile, x: Symbol)
    requires r != a && r != c && a != c
    ensures Visible(Chain(r, a, c, x), x.name, r)
  {
    var g := Chain(r, a, c, x);
    assert c in Edges(g[a]) && a in Edges(g[r]) by { assert g[a].list[0] == c && g[r].list[0] == a; }
    assert x.name in Names(g[c].table) by { assert [x][0] == x; }
    hide Chain, Names, Edges;
    OwnVisible(g, x.name, c);
    VisibleOne(g, a, c, x.name);
    VisibleOne(g, r, a, x.name);
  }

  lemma {:induction false} ChainSearch(r: IncludeFile, a: IncludeFile, c: IncludeFile, x: Symbol, s: string)
    requires r != a && r != c && a != c && s != x.name
    ensures var (h, found) := SearchFile(Chain(r, a, c, x), s, r);
            found == NotFound && h[r] == View([a], [true], [], false, true)
  {
    hide Sorted, SearchFile, SearchList;
    var g := Chain(r, a, c, x);
    var g1 := Mark(g, r, true);
    var g2 := Mark(g1, a, true);
    LeafSearch(g2, s, c);
    OnlyChildSearch(g1, s, a, c, g2);
    var g3 := Mark(Absorb(g2, a, 0), a, false);
    assert g3[a].table == [] && g3[r] == g1[r];
    OnlyChildSearch(g, s, r, a, g3);
  }

  lemma {:induction false} IndexOfOne(q: Symbol)
    ensures IndexOf([q], q.name) == 0
  {
  }
}
