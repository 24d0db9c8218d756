/** Which definition fdefined of parse.c finds, if a symbol has several: the one that a plain walk over the include graph
    of the start comes to first, although the search itself merges tables and cuts edges. */
module DefinitionOrder {
  import opened SymbolTable
  import opened IncludeGraph
  import opened DefinitionSearch

  datatype Choice = Nobody | Chosen(file: IncludeFile)

  /** The file's own table first, then the files it includes in the order of the list; never a file of the stack. */
  ghost function First(g: Graph, s: string, f: IncludeFile, stack: set<IncludeFile>): (c: Choice)
    requires WellFormed(g) && f in g
    decreases g.Keys - stack, 0, 1
  {
    if f in stack then Nobody
    else if s in Names(g[f].table) then Chosen(f)
    else
      assert g.Keys - (stack + {f}) < g.Keys - stack by { assert f in g.Keys - stack; }
      FirstFrom(g, s, f, 0, stack + {f})
  }

  ghost function FirstFrom(g: Graph, s: string, f: IncludeFile, i: nat, stack: set<IncludeFile>): (c: Choice)
    requires WellFormed(g) && f in g && i <= |g[f].list|
    decreases g.Keys - stack, |g[f].list| - i, 0
  {
    if i == |g[f].list| then Nobody
    else if g[f].merged[i] then FirstFrom(g, s, f, i + 1, stack)
    else
      var c := First(g, s, g[f].list[i], stack);
      if c.Chosen? then c else FirstFrom(g, s, f, i + 1, stack)
  }

  ghost function Stack(g: Graph): set<IncludeFile> {
    set f | f in g && g[f].checked
  }

  function ChoiceOf(r: Found): Choice {
    if r.At? then Chosen(r.file) else Nobody
  }

  /** Files that have been left for good have all their edges inside the files seen. */
  ghost predicate Left(g0: Graph, seen: set<IncludeFile>, stack: set<IncludeFile>) {
    forall x :: x in seen && x !in stack ==> x in g0 && Edges(g0[x]) <= seen
  }

  ghost predicate Lacking(g0: Graph, s: string, seen: set<IncludeFile>) {
    forall x :: x in seen ==> x in g0 && s !in Names(g0[x].table)
  }

  /** From a file seen the walk comes to nothing. */
  lemma {:induction false} NobodyAgain(g0: Graph, s: string, d: IncludeFile, seen: set<IncludeFile>, stack: set<IncludeFile>)
    requires WellFormed(g0) && d in g0 && d in seen && Lacking(g0, s, seen) && Left(g0, seen, stack)
    ensures First(g0, s, d, stack) == Nobody
    decreases g0.Keys - stack, 0, 1
  {
    hide FirstFrom, Edges, Names, Sorted;
    if d !in stack {
      assert g0.Keys - (stack + {d}) < g0.Keys - stack by { assert d in g0.Keys - stack; }
      NobodyFrom(g0, s, d, 0, seen, stack + {d});
    }
  }

  lemma {:induction false} NobodyFrom(g0: Graph, s: string, d: IncludeFile, i: nat, seen: set<IncludeFile>, stack: set<IncludeFile>)
    requires WellFormed(g0) && d in g0 && i <= |g0[d].list| && Edges(g0[d]) <= seen && Lacking(g0, s, seen) && Left(g0, seen, stack)
    ensures FirstFrom(g0, s, d, i, stack) == Nobody
    decreases g0.Keys - stack, |g0[d].list| - i, 0
  {
    hide First, Left, Lacking, Sorted;
    if i < |g0[d].list| {
      if !g0[d].merged[i] { NobodyAgain(g0, s, g0[d].list[i], seen, stack); }
      NobodyFrom(g0, s, d, i + 1, seen, stack);
    }
  }

  lemma {:induction false} SeenLack(g0: Graph, g: Graph, s: string, seen: set<IncludeFile>)
    requires Searching(g0, g, s, seen)
    ensures WellFormed(g0) && WellFormed(g) && g0.Keys == g.Keys && Lacking(g0, s, seen) && Stack(g) <= seen
    ensures forall f :: f in g ==> g[f].list == g0[f].list && (s in Names(g[f].table) <==> s in Names(g0[f].table) && f !in seen)
  {
  }

  lemma {:induction false} StackMark(g: Graph, f: IncludeFile, seen: set<IncludeFile>, g0: Graph)
    requires WellFormed(g) && f in g && Left(g0, seen, Stack(g))
    ensures Stack(Mark(g, f, true)) == Stack(g) + {f} && Left(g0, seen + {f}, Stack(g) + {f})
  {
    hide WellFormed, Edges;
  }

  lemma {:induction false} StackSame(g: Graph, h: Graph)
    requires SameFlags(g, h)
    ensures Stack(h) == Stack(g)
  {
  }

  lemma {:induction false} LeftMore(g0: Graph, seen: set<IncludeFile>, seen': set<IncludeFile>, stack: set<IncludeFile>)
    requires Left(g0, seen, stack) && Closed(g0, seen, seen') && seen' <= g0.Keys
    ensures Left(g0, seen', stack)
  {
    hide Edges;
  }

  lemma {:induction false} FirstStep(g0: Graph, s: string, f: IncludeFile, stack: set<IncludeFile>)
    requires WellFormed(g0) && f in g0
    ensures f in stack ==> First(g0, s, f, stack) == Nobody
    ensures f !in stack && s in Names(g0[f].table) ==> First(g0, s, f, stack) == Chosen(f)
    ensures f !in stack && s !in Names(g0[f].table) ==> First(g0, s, f, stack) == FirstFrom(g0, s, f, 0, stack + {f})
  {
    hide FirstFrom;
  }

  /** fdefined finds what the plain walk finds. */
  lemma {:induction false} FileFirst(g0: Graph, g: Graph, s: string, f: IncludeFile, seen: set<IncludeFile>, q: (Graph, Found))
    requires WellFormed(g0) && WellFormed(g) && f in g0 && f in g && q == SearchFile(g, s, f)
    requires Searching(g0, g, s, seen) && Left(g0, seen, Stack(g))
    ensures First(g0, s, f, Stack(g)) == ChoiceOf(q.1)
    decreases Unchecked(g), 0, 1
  {
    hide Searching, Left, First, FirstFrom, SearchList, Mark, Sorted, Names, Unchecked, WellFormed, Lacking;
    SeenLack(g0, g, s, seen);
    FirstStep(g0, s, f, Stack(g));
    if !g[f].checked && IndexOf(g[f].table, s) < 0 {
      MarkLess(g, f);
      FileEntered(g0, g, s, f, seen);
      StackMark(g, f, seen, g0);
      SeenLacks(g0, g, s, f, seen);
      ListFirst(g0, Mark(g, f, true), s, f, 0, seen + {f}, SearchList(Mark(g, f, true), s, f, 0));
    }
  }

  lemma {:induction false} SeenLacks(g0: Graph, g: Graph, s: string, f: IncludeFile, seen: set<IncludeFile>)
    requires Searching(g0, g, s, seen) && f in g && s !in Names(g[f].table)
    ensures f in g0 && s !in Names(g0[f].table)
  {
  }

  lemma {:induction false} ListFirst(g0: Graph, g: Graph, s: string, f: IncludeFile, i: nat, seen: set<IncludeFile>, q: (Graph, Found))
    requires WellFormed(g0) && WellFormed(g) && f in g0 && f in g && i <= |g[f].list| == |g0[f].list| && q == SearchList(g, s, f, i)
    requires Searching(g0, g, s, seen) && Left(g0, seen, Stack(g)) && f in seen && g[f].checked
    ensures FirstFrom(g0, s, f, i, Stack(g)) == ChoiceOf(q.1)
    decreases Unchecked(g), |g[f].list| - i, 1
  {
    hide Searching, Left, First, Stack, SearchFile, SearchList, Sorted, Names, Unchecked, WellFormed, Lacking, Absorb, Edges, Explored, FoundAt;
    EdgeFacts(g0, g, s, seen, f, i);
    if i == |g[f].list| {
      ListEnd(g, s, f);
    } else {
      ListStep(g, s, f, i);
      if g[f].merged[i] {
        if !g0[f].merged[i] {
          SeenLack(g0, g, s, seen);
          NobodyAgain(g0, s, g0[f].list[i], seen, Stack(g));
        }
        ListFirst(g0, g, s, f, i + 1, seen, q);
      } else {
        ListFirstRest(g0, g, s, f, i, seen, q);
      }
    }
  }

  lemma {:induction false} EdgeFacts(g0: Graph, g: Graph, s: string, seen: set<IncludeFile>, f: IncludeFile, i: nat)
    requires Searching(g0, g, s, seen) && f in g
    ensures f in g0 && g[f].list == g0[f].list && |g[f].merged| == |g[f].list| == |g0[f].merged|
    ensures i < |g[f].list| ==> g[f].list[i] in g && g[f].list[i] in g0
    ensures i < |g[f].list| ==> (g0[f].merged[i] ==> g[f].merged[i]) && (g[f].merged[i] && !g0[f].merged[i] ==> g[f].list[i] in seen)
  {
  }

  lemma {:induction false} ListFirstRest(g0: Graph, g: Graph, s: string, f: IncludeFile, i: nat, seen: set<IncludeFile>, q: (Graph, Found))
    requires WellFormed(g0) && WellFormed(g) && f in g0 && f in g && i < |g[f].list| == |g0[f].list| && q == SearchList(g, s, f, i)
    requires Searching(g0, g, s, seen) && Left(g0, seen, Stack(g)) && f in seen && g[f].checked && |g[f].merged| == |g[f].list| && !g[f].merged[i]
    ensures FirstFrom(g0, s, f, i, Stack(g)) == ChoiceOf(q.1)
    decreases Unchecked(g), |g[f].list| - i, 0
  {
    hide Searching, Left, First, Stack, SearchFile, SearchList, Sorted, Names, Unchecked, WellFormed, Lacking, Absorb, Edges, FoundAt, Collected, SameFiles;
    EdgeFacts(g0, g, s, seen, f, i);
    ListStep(g, s, f, i);
    var c := g[f].list[i];
    var (h, r) := SearchFile(g, s, c);
    FileFirst(g0, g, s, c, seen, (h, r));
    if r.NotFound? {
      var seen1 := FileSearch(g0, g, s, c, seen, (h, r));
      SeenLack(g0, h, s, seen1);
      AbsorbSearching(g0, h, s, seen1, f, i);
      SeenKept(g0, h, s, seen1);
      LeftMore(g0, seen, seen1, Stack(g));
      FlagsKept(g, h, f, i);
      ListFirst(g0, Absorb(h, f, i), s, f, i + 1, seen1, q);
    }
  }

  lemma {:induction false} SeenKept(g0: Graph, g: Graph, s: string, seen: set<IncludeFile>)
    requires Searching(g0, g, s, seen)
    ensures seen <= g0.Keys
  {
  }

  lemma {:induction false} FlagsKept(g: Graph, h: Graph, f: IncludeFile, i: nat)
    requires WellFormed(g) && WellFormed(h) && f in g && SameFlags(g, h) && i < |g[f].list|
    ensures f in h && i < |h[f].list| && Stack(Absorb(h, f, i)) == Stack(g) && WellFormed(Absorb(h, f, i)) && f in Absorb(h, f, i)
    ensures Absorb(h, f, i)[f].list == g[f].list && Absorb(h, f, i)[f].checked == g[f].checked
    ensures Unchecked(Absorb(h, f, i)) == Unchecked(g)
  {
    hide Absorb, Sorted;
    StackSame(g, Absorb(h, f, i));
  }

  /** Started with no file on the stack, fdefined finds the symbol in the file that the plain walk over the graph of the
      start comes to first, and finds none exactly when the walk comes to none. */
  lemma {:induction false} FirstIsFound(g: Graph, s: string, f: IncludeFile)
    requires WellFormed(g) && Idle(g) && f in g
    ensures First(g, s, f, {}) == ChoiceOf(SearchFile(g, s, f).1)
  {
    hide SearchFile, First;
    assert Stack(g) == {};
    FileFirst(g, g, s, f, {}, SearchFile(g, s, f));
  }

  lemma {:induction false} ChosenIsReached(g: Graph, s: string, f: IncludeFile, stack: set<IncludeFile>, t: IncludeFile)
    requires WellFormed(g) && f in g && First(g, s, f, stack) == Chosen(t)
    ensures t in g && Reaches(g, f, t) && s in Names(g[t].table)
    decreases g.Keys - stack, 0, 1
  {
    hide FirstFrom, Sorted, Edges, Names;
    assert ReachesIn(g, f, f, 0);
    if s !in Names(g[f].table) {
      assert g.Keys - (stack + {f}) < g.Keys - stack by { assert f in g.Keys - stack; }
      ChosenFrom(g, s, f, 0, stack + {f}, t);
    }
  }

  lemma {:induction false} ChosenFrom(g: Graph, s: string, f: IncludeFile, i: nat, stack: set<IncludeFile>, t: IncludeFile)
    requires WellFormed(g) && f in g && i <= |g[f].list| && FirstFrom(g, s, f, i, stack) == Chosen(t)
    ensures t in g && Reaches(g, f, t) && s in Names(g[t].table)
    decreases g.Keys - stack, |g[f].list| - i, 0
  {
    hide First, Sorted, Reaches, Names;
    if g[f].merged[i] {
      ChosenFrom(g, s, f, i + 1, stack, t);
    } else {
      var c := g[f].list[i];
      if First(g, s, c, stack).Chosen? {
        ChosenIsReached(g, s, c, stack, t);
        assert c in Edges(g[f]);
        ReachesOver(g, f, c, t);
      } else {
        ChosenFrom(g, s, f, i + 1, stack, t);
      }
    }
  }

  /** A path that leaves a set with only one way out goes through that file. */
  lemma {:induction false} OneWayOut(g: Graph, S: set<IncludeFile>, f: IncludeFile, a: IncludeFile, t: IncludeFile, n: nat)
    requires ReachesIn(g, a, t, n) && a in S && t !in S && forall h :: h in S && h != f ==> h in g && Edges(g[h]) <= S
    ensures Reaches(g, a, f)
    decreases n
  {
    if a == f {
      assert ReachesIn(g, a, a, 0);
    } else {
      var h :| h in Edges(g[a]) && ReachesIn(g, h, t, n - 1);
      OneWayOut(g, S, f, h, t, n - 1);
      ReachesOver(g, a, h, f);
    }
  }

  lemma {:induction false} AfterMark(g: Graph, s: string, f: IncludeFile)
    requires WellFormed(g) && Idle(g) && f in g && s !in Names(g[f].table)
    ensures var m := Mark(g, f, true);
            WellFormed(m) && Searching(g, m, s, {f}) && Left(g, {f}, Stack(m)) && Stack(m) == {f}
  {
    hide Sorted, Edges, Names;
    assert Searching(g, g, s, {});
    FileEntered(g, g, s, f, {});
    assert {} + {f} == {f};
  }

  /** A file that sees s, and comes to nothing with f on the stack, reaches f. */
  lemma {:induction false} NobodyReachesBack(g: Graph, s: string, f: IncludeFile, c: IncludeFile)
    requires WellFormed(g) && Idle(g) && f in g && c in g && s !in Names(g[f].table) && Visible(g, s, c) && First(g, s, c, {f}) == Nobody
    ensures Reaches(g, c, f)
  {
    hide First, SearchFile, Names, Sorted, Edges, Reaches, Mark, Collected, Idle, Left;
    AfterMark(g, s, f);
    var m := Mark(g, f, true);
    var q := SearchFile(m, s, c);
    FileFirst(g, m, s, c, {f}, q);
    var seen := FileSearch(g, m, s, c, {f}, q);
    SeenLack(g, q.0, s, seen);
    var t :| t in g && Reaches(g, c, t) && s in Names(g[t].table);
    LeavesSeen(g, seen, f, c, t);
  }

  lemma {:induction false} LeavesSeen(g: Graph, seen: set<IncludeFile>, f: IncludeFile, c: IncludeFile, t: IncludeFile)
    requires Reaches(g, c, t) && c in seen && t !in seen && Closed(g, {f}, seen) && seen <= g.Keys
    ensures Reaches(g, c, f)
  {
    hide Edges;
    var n: nat :| ReachesIn(g, c, t, n);
    OneWayOut(g, seen, f, c, t, n);
  }

  lemma {:induction false} SkipsBlind(g: Graph, s: string, f: IncludeFile, j: nat, i: nat, stack: set<IncludeFile>)
    requires WellFormed(g) && f in g && j <= i <= |g[f].list|
    requires forall k :: j <= k < i ==> g[f].merged[k] || !Visible(g, s, g[f].list[k])
    ensures FirstFrom(g, s, f, j, stack) == FirstFrom(g, s, f, i, stack)
    decreases i - j
  {
    hide First, Visible, Sorted;
    if j < i {
      if !g[f].merged[j] && First(g, s, g[f].list[j], stack).Chosen? {
        var c := g[f].list[j];
        ChosenIsReached(g, s, c, stack, First(g, s, c, stack).file);
        ChosenIsVisible(g, s, c, First(g, s, c, stack).file);
      }
      SkipsBlind(g, s, f, j + 1, i, stack);
    }
  }

  lemma {:induction false} ChosenIsVisible(g: Graph, s: string, f: IncludeFile, t: IncludeFile)
    requires t in g && Reaches(g, f, t) && s in Names(g[t].table)
    ensures Visible(g, s, f)
  {
  }

  /** If a file does not define s itself, the definition found is one that the first include seeing s reaches. */
  lemma {:induction false} FirstIncludeWins(g: Graph, s: string, f: IncludeFile, i: nat)
    requires WellFormed(g) && Idle(g) && f in g && i < |g[f].list| && s !in Names(g[f].table)
    requires !g[f].merged[i] && Visible(g, s, g[f].list[i])
    requires forall j :: 0 <= j < i ==> g[f].merged[j] || !Visible(g, s, g[f].list[j])
    ensures var r := SearchFile(g, s, f).1; r.At? && Reaches(g, g[f].list[i], r.file)
  {
    hide First, FirstFrom, SearchFile, Visible, Names, Sorted, Reaches, Idle;
    var c, r := g[f].list[i], SearchFile(g, s, f).1;
    FirstIsFound(g, s, f);
    FirstStep(g, s, f, {});
    assert {} + {f} == {f};
    SkipsBlind(g, s, f, 0, i, {f});
    FromStep(g, s, f, i, {f});
    SearchIsExact(g, s, f);
    SeesOver(g, s, f, i);
    if First(g, s, c, {f}).Chosen? {
      ChosenIsReached(g, s, c, {f}, First(g, s, c, {f}).file);
    } else {
      NobodyReachesBack(g, s, f, c);
      Joined(g, c, f, r.file);
    }
  }

  lemma {:induction false} FromStep(g: Graph, s: string, f: IncludeFile, i: nat, stack: set<IncludeFile>)
    requires WellFormed(g) && f in g && i < |g[f].list| && !g[f].merged[i]
    ensures g[f].list[i] in g
    ensures First(g, s, g[f].list[i], stack).Chosen? ==> FirstFrom(g, s, f, i, stack) == First(g, s, g[f].list[i], stack)
  {
    hide First, Sorted;
  }

  lemma {:induction false} SeesOver(g: Graph, s: string, f: IncludeFile, i: nat)
    requires WellFormed(g) && f in g && i < |g[f].list| && !g[f].merged[i] && Visible(g, s, g[f].list[i])
    ensures Visible(g, s, f)
  {
    hide Visible, Sorted;
    assert g[f].list[i] in Edges(g[f]);
    VisibleOne(g, f, g[f].list[i], s);
  }

  lemma {:induction false} Joined(g: Graph, a: IncludeFile, b: IncludeFile, c: IncludeFile)
    requires Reaches(g, a, b) && Reaches(g, b, c)
    ensures Reaches(g, a, c)
  {
    var m: nat, n: nat :| ReachesIn(g, a, b, m) && ReachesIn(g, b, c, n);
    ReachesJoin(g, a, b, c, m, n);
  }
}
