/** makedepend's pr.c: the walk over the include graph that prints the dependencies of one source file. */
module DependencyPrinter {
  import opened IncludeGraph

  // ----- the walk -----

  type Lists = map<IncludeFile, seq<IncludeFile>>

  ghost predicate Closed(g: Lists) {
    forall f :: f in g ==> forall i :: 0 <= i < |g[f]| ==> g[f][i] in g
  }

  /** recursive_pr_include without the printing: the marks it leaves and the files it comes to, in order. */
  ghost function Walk(g: Lists, marks: set<IncludeFile>, head: IncludeFile): (r: (set<IncludeFile>, seq<IncludeFile>))
    requires Closed(g) && head in g
    ensures marks <= r.0
    decreases g.Keys - marks, 0, 1
  {
    if head in marks then (marks, []) else
    assert head in g.Keys - marks && head !in g.Keys - (marks + {head});
    var (m, s) := WalkList(g, marks + {head}, g[head], 0);
    (m, [head] + s)
  }

  /** Its loop, from the i-th included file on. */
  ghost function WalkList(g: Lists, marks: set<IncludeFile>, list: seq<IncludeFile>, i: nat): (r: (set<IncludeFile>, seq<IncludeFile>))
    requires Closed(g) && i <= |list| && forall j :: 0 <= j < |list| ==> list[j] in g
    ensures marks <= r.0
    decreases g.Keys - marks, |list| - i, 0
  {
    if i == |list| then (marks, []) else
    var (m, s) := Walk(g, marks, list[i]);
    assert g.Keys - m <= g.Keys - marks;
    var (m1, s1) := WalkList(g, m, list, i + 1);
    (m1, s + s1)
  }

  /** t is reached from f over n includes. */
  ghost predicate ReachesIn(g: Lists, f: IncludeFile, t: IncludeFile, n: nat) {
    f in g && if n == 0 then f == t else exists h :: h in g[f] && ReachesIn(g, h, t, n - 1)
  }

  ghost predicate Reaches(g: Lists, f: IncludeFile, t: IncludeFile) {
    exists n: nat :: ReachesIn(g, f, t, n)
  }

  ghost predicate Distinct(s: seq<IncludeFile>) {
    forall i, j :: 0 <= i < j < |s| ==> s[i] != s[j]
  }

  function Members(s: seq<IncludeFile>): set<IncludeFile> {
    set x | x in s
  }

  /** A walk marks what it comes to, comes to nothing twice and to nothing marked before, and leaves no file it came
      to with an unmarked include. */
  ghost predicate Walked(g: Lists, marks: set<IncludeFile>, r: (set<IncludeFile>, seq<IncludeFile>)) {
    && r.0 == marks + Members(r.1)
    && (forall x :: x in r.1 ==> x in g && x !in marks)
    && Distinct(r.1)
    && (forall x, i :: x in r.1 && x in g && 0 <= i < |g[x]| ==> g[x][i] in r.0)
  }

  lemma {:induction false} WalkMarks(g: Lists, marks: set<IncludeFile>, head: IncludeFile, r: (set<IncludeFile>, seq<IncludeFile>))
    requires Closed(g) && head in g && r == Walk(g, marks, head)
    ensures Walked(g, marks, r) && head in r.0 && (head !in marks ==> r.1 != [] && r.1[0] == head)
    decreases g.Keys - marks, 0, 1
  {
    if head !in marks {
      assert head in g.Keys - marks && head !in g.Keys - (marks + {head});
      var q := WalkList(g, marks + {head}, g[head], 0);
      ListMarks(g, marks + {head}, g[head], 0, q);
      hide WalkList, Closed;
      assert r.1 == [head] + q.1;
    }
  }

  lemma {:induction false} ListMarks(g: Lists, marks: set<IncludeFile>, list: seq<IncludeFile>, i: nat, r: (set<IncludeFile>, seq<IncludeFile>))
    requires Closed(g) && i <= |list| && forall j :: 0 <= j < |list| ==> list[j] in g
    requires r == WalkList(g, marks, list, i)
    ensures Walked(g, marks, r) && forall j :: i <= j < |list| ==> list[j] in r.0
    decreases g.Keys - marks, |list| - i, 0
  {
    if i < |list| {
      var q := Walk(g, marks, list[i]);
      assert g.Keys - q.0 <= g.Keys - marks;
      WalkMarks(g, marks, list[i], q);
      var q1 := WalkList(g, q.0, list, i + 1);
      ListMarks(g, q.0, list, i + 1, q1);
      hide Walk, WalkList, Closed;
      WalkedJoin(g, marks, q, q1);
      assert r == (q1.0, q.1 + q1.1);
    }
  }

  lemma {:induction false} WalkedJoin(g: Lists, marks: set<IncludeFile>, q: (set<IncludeFile>, seq<IncludeFile>), q1: (set<IncludeFile>, seq<IncludeFile>))
    requires Walked(g, marks, q) && Walked(g, q.0, q1)
    ensures Walked(g, marks, (q1.0, q.1 + q1.1))
  {
    var s := q.1 + q1.1;
    assert Members(s) == Members(q.1) + Members(q1.1);
    forall i, j | 0 <= i < j < |s| ensures s[i] != s[j] {
      if i < |q.1| <= j { assert s[i] in Members(q.1) && s[j] in q1.1; }
    }
  }

  lemma {:induction false} Follow(g: Lists, S: set<IncludeFile>, f: IncludeFile, t: IncludeFile, n: nat)
    requires ReachesIn(g, f, t, n) && f in S && forall x, i :: x in S && x in g && 0 <= i < |g[x]| ==> g[x][i] in S
    ensures t in S
    decreases n
  {
    if n > 0 {
      var h :| h in g[f] && ReachesIn(g, h, t, n - 1);
      Follow(g, S, h, t, n - 1);
    }
  }

  lemma {:induction false} WalkReaches(g: Lists, marks: set<IncludeFile>, head: IncludeFile, x: IncludeFile)
    requires Closed(g) && head in g && x in Walk(g, marks, head).1
    ensures Reaches(g, head, x)
    decreases g.Keys - marks, 0, 1
  {
    assert head in g.Keys - marks && head !in g.Keys - (marks + {head});
    if x == head {
      assert ReachesIn(g, head, head, 0);
    } else {
      ListReaches(g, marks + {head}, g[head], 0, x);
      var j: int, n: nat :| 0 <= j < |g[head]| && ReachesIn(g, g[head][j], x, n);
      OneMore(g, head, g[head][j], x, n);
    }
  }

  lemma {:induction false} OneMore(g: Lists, f: IncludeFile, h: IncludeFile, t: IncludeFile, n: nat)
    requires f in g && h in g[f] && ReachesIn(g, h, t, n)
    ensures ReachesIn(g, f, t, n + 1)
  {
    assert ReachesIn(g, h, t, (n + 1) - 1);
  }

  lemma {:induction false} ListReaches(g: Lists, marks: set<IncludeFile>, list: seq<IncludeFile>, i: nat, x: IncludeFile)
    requires Closed(g) && i <= |list| && forall j :: 0 <= j < |list| ==> list[j] in g
    requires x in WalkList(g, marks, list, i).1
    ensures exists j, n: nat :: 0 <= j < |list| && ReachesIn(g, list[j], x, n)
    decreases g.Keys - marks, |list| - i, 0
  {
    var (m, s) := Walk(g, marks, list[i]);
    assert g.Keys - m <= g.Keys - marks;
    if x in s {
      WalkReaches(g, marks, list[i], x);
    } else {
      ListReaches(g, m, list, i + 1, x);
    }
  }

  /** Started with clear marks, the walk marks exactly the files reachable from the head and comes to each of them
      once, to the head first - however the includes may loop. */
  lemma {:induction false} WalkIsExact(g: Lists, head: IncludeFile)
    requires Closed(g) && head in g
    ensures var (m, s) := Walk(g, {}, head);
            m == Members(s) && Distinct(s) && s != [] && s[0] == head
            && forall x :: x in g ==> (x in s <==> Reaches(g, head, x))
  {
    hide Walk;
    var r := Walk(g, {}, head);
    WalkMarks(g, {}, head, r);
    forall x | x in g ensures x in r.1 <==> Reaches(g, head, x) {
      if x in r.1 { WalkReaches(g, {}, head, x); }
      if Reaches(g, head, x) {
        var n: nat :| ReachesIn(g, head, x, n);
        Follow(g, r.0, head, x, n);
      }
    }
  }

  // ----- what is printed -----

  /** One write of pr: the start of a rule, one more file on the same line, or a comment with what a file includes. */
  datatype Out = Start(target: string, path: string) | More(path: string) | Note(path: string, includes: seq<string>)

  datatype Option<T> = None | Some(value: T)

  /** The target of the rule that the last line written belongs to. */
  function Target(out: seq<Out>): Option<string> {
    if out == [] then None else
    match out[|out| - 1]
    case Start(t, _) => Some(t)
    case More(_) => Target(out[..|out| - 1])
    case Note(_, _) => None
  }

  /** The dependencies that make reads from the output.  What is added to a comment line is lost. */
  function Rules(out: seq<Out>): seq<(string, string)> {
    if out == [] then [] else
    var before := out[..|out| - 1];
    match out[|out| - 1]
    case Start(t, p) => Rules(before) + [(t, p)]
    case More(p) => if Target(before).Some? then Rules(before) + [(Target(before).value, p)] else Rules(before)
    case Note(_, _) => Rules(before)
  }

  /** The length of the line being written, its newline counted. */
  function LineLength(out: seq<Out>): nat {
    if out == [] then 0 else
    match out[|out| - 1]
    case Start(t, p) => 1 + |t| + 2 + |p|
    case More(p) => LineLength(out[..|out| - 1]) + 1 + |p|
    case Note(_, _) => 0
  }

  /** No file is put on a line that has no room for it. */
  ghost predicate WithinWidth(out: seq<Out>, width: int) {
    forall n :: 0 < n <= |out| && out[..n][n - 1].More? ==> LineLength(out[..n]) <= width
  }

  lemma {:induction false} Append(out: seq<Out>, o: Out)
    ensures (out + [o])[..|out|] == out && (out + [o])[|out|] == o
  {
  }

  lemma {:induction false} Wrote(out: seq<Out>, o: Out, width: int)
    requires WithinWidth(out, width) && (o.More? ==> LineLength(out) + 1 + |o.path| <= width && Target(out).Some?)
    ensures WithinWidth(out + [o], width)
    ensures Target(out + [o]) == if o.Start? then Some(o.target) else if o.More? then Target(out) else None
    ensures Rules(out + [o]) == if o.Start? then Rules(out) + [(o.target, o.path)]
                                else if o.More? then Rules(out) + [(Target(out).value, o.path)] else Rules(out)
    ensures o.Start? ==> LineLength(out + [o]) == 1 + |o.target| + 2 + |o.path|
    ensures o.More? ==> LineLength(out + [o]) == LineLength(out) + 1 + |o.path|
  {
    Append(out, o);
    WidthKept(out, o, width);
  }

  lemma {:induction false} WidthKept(out: seq<Out>, o: Out, width: int)
    requires WithinWidth(out, width) && (o.More? ==> LineLength(out) + 1 + |o.path| <= width)
    ensures WithinWidth(out + [o], width)
  {
    Append(out, o);
    forall n | 0 < n <= |out| + 1 && (out + [o])[..n][n - 1].More? ensures LineLength((out + [o])[..n]) <= width {
      if n <= |out| {
        assert (out + [o])[..n] == out[..n];
      } else {
        assert (out + [o])[..n] == out + [o];
      }
    }
  }

  /** base_name: the name up to its last dot. */
  function BaseName(file: string): string
  {
    BaseBefore(file, |file|)
  }

  function BaseBefore(file: string, p: nat): (base: string)
    requires p <= |file|
    ensures base <= file
  {
    if p < |file| && file[p] == '.' then file[..p]
    else if p == 0 then file
    else BaseBefore(file, p - 1)
  }

  function Paths(list: seq<IncludeFile>): seq<string> {
    seq(|list|, i requires 0 <= i < |list| => list[i].incstring)
  }

  class Printer {
    const width: int
    const prefix: string            // objprefix
    const suffix: string            // objsuffix
    const verbose: bool
    var printed: bool
    var currentLen: int             // current_len
    var lastfile: IncludeFile?
    var out: seq<Out>

    constructor (width: int, prefix: string, suffix: string, verbose: bool)
      ensures Valid() && out == [] && !printed
    {
      this.width, this.prefix, this.suffix, this.verbose := width, prefix, suffix, verbose;
      printed, currentLen, lastfile, out := false, 0, null, [];
    }

    function TargetOf(file: IncludeFile): string {
      prefix + BaseName(file.path) + suffix
    }

    /** lastfile is the source file whose rule the current line continues, and current_len the length of that line. */
    ghost predicate Valid()
      reads this
    {
      && WithinWidth(out, width)
      && (lastfile != null ==> Target(out) == Some(TargetOf(lastfile)) && currentLen == LineLength(out))
    }

    /** pr: one dependency more, in a new rule when the line is full or not one of this source file. */
    method Pr(ip: IncludeFile, file: IncludeFile)
      requires Valid()
      modifies `printed, `currentLen, `lastfile, `out, ip`notified
      ensures Valid() && printed
      ensures Rules(out) == Rules(old(out)) + [(TargetOf(file), ip.path)]
      ensures ip.notified <==> old(ip.notified) || (verbose && ip.list != [])
      ensures var noted := if verbose && ip.list != [] && !old(ip.notified) then [Note(ip.path, Paths(ip.list))] else [];
              |out| == |old(out)| + 1 + |noted| && old(out) <= out && out[|old(out)| + 1..] == noted
      ensures out[|old(out)|] == if old(lastfile) == file && old(currentLen) + |ip.path| + 1 <= width then More(ip.path)
                                 else Start(TargetOf(file), ip.path)
    {
      hide Rules, Target, LineLength, WithinWidth;
      printed := true;
      var len := |ip.path| + 1;
      ghost var o := More(ip.path);
      if currentLen + len > width || file != lastfile {
        lastfile := file;
        o := Start(TargetOf(file), ip.path);
        Wrote(out, o, width);
        out := out + [Start(TargetOf(file), ip.path)];
        currentLen := |"\n" + TargetOf(file) + ": " + ip.path|;
      } else {
        Wrote(out, o, width);
        out := out + [More(ip.path)];
        currentLen := currentLen + len;
      }
      assert out == old(out) + [o];
      if !verbose || ip.list == [] || ip.notified { return; }
      ip.notified := true;
      lastfile := null;
      Wrote(out, Note(ip.path, Paths(ip.list)), width);
      out := out + [Note(ip.path, Paths(ip.list))];
    }
  }

  // ----- recursive_pr_include -----

  ghost function ListsOf(U: set<IncludeFile>): (g: Lists)
    reads U`list
    ensures g.Keys == U
  {
    map f | f in U :: f.list
  }

  ghost function Marked(U: set<IncludeFile>): set<IncludeFile>
    reads U`marked
  {
    set f | f in U && f.marked
  }

  /** The dependencies of `file` on the files of s; it does not depend on itself. */
  function Dependencies(target: string, s: seq<IncludeFile>, file: IncludeFile): seq<(string, string)> {
    if s == [] then []
    else (if s[0] == file then [] else [(target, s[0].path)]) + Dependencies(target, s[1..], file)
  }

  lemma {:induction false} DependenciesJoin(target: string, s: seq<IncludeFile>, s1: seq<IncludeFile>, file: IncludeFile)
    ensures Dependencies(target, s + s1, file) == Dependencies(target, s, file) + Dependencies(target, s1, file)
  {
    if s == [] {
      assert s + s1 == s1;
    } else {
      assert (s + s1)[1..] == s[1..] + s1;
      DependenciesJoin(target, s[1..], s1, file);
    }
  }

  method RecursivePrInclude(p: Printer, head: IncludeFile, file: IncludeFile, ghost U: set<IncludeFile>)
    requires Closed(ListsOf(U)) && head in U && p.Valid()
    modifies p`printed, p`currentLen, p`lastfile, p`out, U`marked, U`notified
    ensures p.Valid() && old(p.out) <= p.out
    ensures var (m, s) := Walk(ListsOf(U), old(Marked(U)), head);
            Marked(U) == m && Rules(p.out) == Rules(old(p.out)) + Dependencies(p.TargetOf(file), s, file)
    decreases U - Marked(U), 0
  {
    hide Rules, WalkList, Closed, Printer.Valid;
    ghost var g, marks, rules := ListsOf(U), Marked(U), Rules(p.out);
    assert g[head] == head.list;
    if head.marked { return; }
    WalkNew(g, marks, head);
    hide Walk;
    head.marked := true;
    assert Marked(U) == marks + {head};
    if head != file { p.Pr(head, file); }
    assert Rules(p.out) == rules + Dependencies(p.TargetOf(file), [head], file);
    assert Marked(U) == marks + {head} && ListsOf(U) == g;
    assert head in U - marks && head !in U - (marks + {head});
    PrIncludes(p, head, file, U);
    assert ListsOf(U) == g;
    var (m, s) := WalkList(g, marks + {head}, g[head], 0);
    assert Marked(U) == m;
    assert Rules(p.out) == (rules + Dependencies(p.TargetOf(file), [head], file)) + Dependencies(p.TargetOf(file), s, file);
    DependenciesJoin(p.TargetOf(file), [head], s, file);
  }

  lemma {:induction false} WalkNew(g: Lists, marks: set<IncludeFile>, head: IncludeFile)
    requires Closed(g) && head in g && head !in marks
    ensures var (m, s) := WalkList(g, marks + {head}, g[head], 0);
            Walk(g, marks, head) == (m, [head] + s)
  {
  }

  lemma {:induction false} ListOf(U: set<IncludeFile>, head: IncludeFile)
    requires Closed(ListsOf(U)) && head in U
    ensures ListsOf(U)[head] == head.list && Included(ListsOf(U), head.list)
    ensures forall j :: 0 <= j < |head.list| ==> head.list[j] in U
  {
    assert ListsOf(U)[head] == head.list;
  }

  lemma {:induction false} NoDependencies(target: string, file: IncludeFile)
    ensures Dependencies(target, [], file) == []
  {
  }

  /** The loop of recursive_pr_include. */
  method PrIncludes(p: Printer, head: IncludeFile, file: IncludeFile, ghost U: set<IncludeFile>)
    requires Closed(ListsOf(U)) && head in U && p.Valid()
    modifies p`printed, p`currentLen, p`lastfile, p`out, U`marked, U`notified
    ensures p.Valid() && old(p.out) <= p.out
    ensures head in ListsOf(U) && (forall j :: 0 <= j < |head.list| ==> head.list[j] in U)
    ensures var (m, s) := WalkList(ListsOf(U), old(Marked(U)), head.list, 0);
            Marked(U) == m && Rules(p.out) == Rules(old(p.out)) + Dependencies(p.TargetOf(file), s, file)
    decreases U - Marked(U), 1
  {
    hide Rules, Walk, WalkList, Walking, Printer.Valid, Dependencies, Closed, ListsOf, Marked, Included;
    ghost var g, marks, rules := ListsOf(U), Marked(U), Rules(p.out);
    ListOf(U, head);
    WalkingStart(g, marks, head.list);
    NoDependencies(p.TargetOf(file), file);
    var i := 0;
    ghost var done: seq<IncludeFile> := [];
    while i < |head.list|
      invariant 0 <= i <= |head.list| && p.Valid() && old(p.out) <= p.out && marks <= Marked(U)
      invariant Rules(p.out) == rules + Dependencies(p.TargetOf(file), done, file)
      invariant Walking(g, marks, head.list, i, Marked(U), done)
    {
      var (m, s) := Walk(g, Marked(U), head.list[i]);
      DependenciesJoin(p.TargetOf(file), done, s, file);
      WalkingStep(g, marks, head.list, i, Marked(U), done);
      RecursivePrInclude(p, head.list[i], file, U);
      done := done + s;
      i := i + 1;
    }
    WalkingEnd(g, marks, head.list, Marked(U), done);
  }

  ghost predicate Included(g: Lists, list: seq<IncludeFile>) {
    Closed(g) && forall j :: 0 <= j < |list| ==> list[j] in g
  }

  /** The walk over `list` has come to the i-th file, with these marks and files. */
  ghost predicate Walking(g: Lists, marks: set<IncludeFile>, list: seq<IncludeFile>, i: nat, m: set<IncludeFile>, done: seq<IncludeFile>) {
    && Included(g, list) && i <= |list|
    && var (m1, s) := WalkList(g, m, list, i);
       WalkList(g, marks, list, 0) == (m1, done + s)
  }

  lemma {:induction false} WalkingStart(g: Lists, marks: set<IncludeFile>, list: seq<IncludeFile>)
    requires Included(g, list)
    ensures Walking(g, marks, list, 0, marks, [])
  {
    assert [] + WalkList(g, marks, list, 0).1 == WalkList(g, marks, list, 0).1;
  }

  lemma {:induction false} WalkingStep(g: Lists, marks: set<IncludeFile>, list: seq<IncludeFile>, i: nat, m: set<IncludeFile>, done: seq<IncludeFile>)
    requires Walking(g, marks, list, i, m, done) && i < |list|
    ensures var (m1, s) := Walk(g, m, list[i]);
            Walking(g, marks, list, i + 1, m1, done + s)
  {
    var (m1, s) := Walk(g, m, list[i]);
    assert done + (s + WalkList(g, m1, list, i + 1).1) == (done + s) + WalkList(g, m1, list, i + 1).1;
  }

  lemma {:induction false} WalkingEnd(g: Lists, marks: set<IncludeFile>, list: seq<IncludeFile>, m: set<IncludeFile>, done: seq<IncludeFile>)
    requires Walking(g, marks, list, |list|, m, done)
    ensures WalkList(g, marks, list, 0) == (m, done)
  {
    assert done + [] == done;
  }

  lemma {:induction false} DependenciesOfOthers(target: string, s: seq<IncludeFile>, file: IncludeFile)
    requires file !in s
    ensures |Dependencies(target, s, file)| == |s|
    ensures forall k :: 0 <= k < |s| ==> Dependencies(target, s, file)[k] == (target, s[k].path)
  {
    if s != [] {
      DependenciesOfOthers(target, s[1..], file);
      assert forall k :: 0 < k < |s| ==> s[k] == s[1..][k - 1];
    }
  }

  /** inc_clean */
  method IncClean(files: seq<IncludeFile>)
    modifies Members(files)`marked
    ensures Marked(Members(files)) == {}
  {
    var i := 0;
    while i < |files|
      invariant 0 <= i <= |files| && forall j :: 0 <= j < i ==> !files[j].marked
    {
      files[i].marked := false;
      i := i + 1;
    }
    assert forall f :: f in Members(files) ==> exists j :: 0 <= j < |files| && files[j] == f;
  }

  /** What main does for one source file once its includes are known: each file it reaches, and no other, becomes a
      dependency of its target, once, and not the source file itself; and the marks are clear for the next one. */
  method PrintDependencies(p: Printer, ip: IncludeFile, files: seq<IncludeFile>) returns (ghost order: seq<IncludeFile>)
    requires Closed(ListsOf(Members(files))) && ip in files && p.Valid() && Marked(Members(files)) == {}
    modifies p`printed, p`currentLen, p`lastfile, p`out, Members(files)`marked, Members(files)`notified
    ensures p.Valid() && Marked(Members(files)) == {}
    ensures Distinct(order) && forall f :: f in files ==> (f in order <==> f != ip && Reaches(ListsOf(Members(files)), ip, f))
    ensures |Rules(p.out)| == |Rules(old(p.out))| + |order| && Rules(old(p.out)) <= Rules(p.out)
    ensures forall k :: 0 <= k < |order| ==> Rules(p.out)[|Rules(old(p.out))| + k] == (p.TargetOf(ip), order[k].path)
  {
    ghost var U := Members(files);
    ghost var g := ListsOf(U);
    WalkIsExact(g, ip);
    ghost var s := Walk(g, {}, ip).1;
    order := s[1..];
    assert s == [ip] + order;
    assert forall f :: f in files ==> (f in order <==> f in s && f != ip);
    DependenciesJoin(p.TargetOf(ip), [ip], order, ip);
    DependenciesOfOthers(p.TargetOf(ip), order, ip);
    hide Walk, Rules, Reaches, Printer.Valid, Dependencies;
    RecursivePrInclude(p, ip, ip, U);
    IncClean(files);
    assert ListsOf(U) == g;
  }
}
