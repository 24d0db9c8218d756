/** The directive scanner of makedepend: find_includes and gobble of parse.c, with add_include of pr.c.

  A file is its sequence of `#` lines.  What a condition evaluates to and which file an #include means depend on
  the symbol tables, and those on everything that happened before; here both are given by arbitrary functions of
  the history of the run, so that every theorem holds for every way of keeping symbols.
  */
module DirectiveScanner {

  datatype Option<T> = None | Some(value: T)

  type File = nat

  /** One directive; `raw` is the line itself, which matters for a terminator that is out of place.  Others (#pragma, #error, #ident, ..., unknown ones) have no effect on the run. */
  datatype Line =
    | If(cond: string) | IfDef(name: string) | IfNDef(name: string)
    | Elif(cond: string, raw: string) | Else(raw: string) | Endif(raw: string)
    | Define(text: string) | Undef(name: string) | Include(text: string) | Other

  /** What a run does, in order: the questions it asks of the symbol tables, and its effects. */
  datatype Event =
    | Evaluated(cond: string) | LookedUp(name: string) | Resolved(text: string)
    | Defined(file: File, text: string) | Undefined(name: string)
    | Included(parent: File, file: File) | Opened(file: File) | Finished(file: File)

  type History = seq<Event>

  /** The files there are, and the answers to the questions asked after a given history. */
  datatype World = World(
    contents: map<File, seq<Line>>,
    holds: (History, string) -> bool,
    known: (History, string) -> bool,
    target: (History, File, string) -> Option<File>)

  /** The history so far, and the SEARCHED and FINISHED flags. */
  datatype Run = Run(log: History, searched: set<File>, finished: set<File>)

  function Note(s: Run, e: Event): (r: Run)
    ensures r.searched == s.searched
  {
    s.(log := s.log + [e])
  }

  /** file->i_flags |= FINISHED */
  function Finish(s: Run, f: File): (r: Run)
    ensures r.searched == s.searched
  {
    if f in s.finished then s else Note(s, Finished(f)).(finished := s.finished + {f})
  }

  predicate Opens(l: Line) { l.If? || l.IfDef? || l.IfNDef? }
  predicate Closes(l: Line) { l.Elif? || l.Else? || l.Endif? }

  // ----- directives as a tree -----

  datatype Items = Nil | Cons(head: Item, tail: Items)

  /** A directive, a conditional group, or a terminator outside every group. */
  datatype Item =
    | Single(line: Line)
    | Group(first: Line, body: Items, rest: Tail)
    | StrayEnd(raw: string)
    | StrayElse(line: Line, body: Items, end: Option<Line>)

  /** The rest of a group after a body.  The file's end closes every group; after an #else part any terminator does. */
  datatype Tail =
    | EndPart(end: Option<Line>)
    | ElifPart(line: Line, body: Items, rest: Tail)
    | ElsePart(line: Line, body: Items, end: Option<Line>)

  /** The items up to the next terminator that belongs to an enclosing group, and the lines from it on. */
  function ParseItems(lines: seq<Line>): (r: (Items, seq<Line>))
    ensures |r.1| <= |lines| && (r.1 == [] || Closes(r.1[0]))
    decreases |lines|, 0
  {
    if lines == [] || Closes(lines[0]) then (Nil, lines)
    else if Opens(lines[0]) then
      var (g, rest) := ParseGroup(lines);
      var (more, end) := ParseItems(rest);
      (Cons(g, more), end)
    else
      var (more, end) := ParseItems(lines[1..]);
      (Cons(Single(lines[0]), more), end)
  }

  function ParseGroup(lines: seq<Line>): (r: (Item, seq<Line>))
    requires lines != [] && Opens(lines[0])
    ensures |r.1| < |lines|
    decreases |lines| - 1, 2
  {
    var (body, rest) := ParseItems(lines[1..]);
    var (tail, end) := ParseTail(rest);
    (Group(lines[0], body, tail), end)
  }

  function ParseTail(lines: seq<Line>): (r: (Tail, seq<Line>))
    requires lines == [] || Closes(lines[0])
    ensures |r.1| <= |lines|
    decreases |lines|, 1
  {
    if lines == [] then (EndPart(None), [])
    else match lines[0]
      case Elif(_, _) =>
        var (body, rest) := ParseItems(lines[1..]);
        var (tail, end) := ParseTail(rest);
        (ElifPart(lines[0], body, tail), end)
      case Else(_) =>
        var (body, rest) := ParseItems(lines[1..]);
        (ElsePart(lines[0], body, First(rest)), After(rest))
      case Endif(_) => (EndPart(First(lines)), lines[1..])
  }

  function First(lines: seq<Line>): Option<Line> {
    if lines == [] then None else Some(lines[0])
  }

  function After(lines: seq<Line>): (r: seq<Line>)
    ensures |r| <= |lines| && (lines != [] ==> |r| < |lines|)
  {
    if lines == [] then [] else lines[1..]
  }

  /** A whole file. */
  function ParseFile(lines: seq<Line>): Items
    decreases |lines|
  {
    var (items, rest) := ParseItems(lines);
    if rest == [] then items
    else Append(items,
      if rest[0].Endif? then Cons(StrayEnd(rest[0].raw), ParseFile(rest[1..]))
      else
        var (body, end) := ParseItems(rest[1..]);
        Cons(StrayElse(rest[0], body, First(end)), ParseFile(After(end))))
  }

  function Append(a: Items, b: Items): Items {
    match a case Nil => b case Cons(h, t) => Cons(h, Append(t, b))
  }

  // ----- what a tree does -----

  /** Reading a terminator while skipping: the condition of an #elif is evaluated, whether it matters or not. */
  function Peek(s: Run, end: Option<Line>): (r: Run)
    ensures r.searched == s.searched
  {
    if end.Some? && end.value.Elif? then Note(s, Evaluated(end.value.cond)) else s
  }

  /** Skipped items only evaluate the conditions of their #elif lines. */
  function SkipItems(s: Run, items: Items): (r: Run)
    ensures r.searched == s.searched
    decreases items
  {
    match items
    case Nil => s
    case Cons(Group(_, body, rest), more) => SkipItems(SkipTail(SkipItems(s, body), rest), more)
    case Cons(_, more) => SkipItems(s, more)
  }

  function SkipTail(s: Run, tail: Tail): (r: Run)
    ensures r.searched == s.searched
    decreases tail
  {
    match tail
    case EndPart(_) => s
    case ElifPart(c, body, rest) => SkipTail(SkipItems(Peek(s, Some(c)), body), rest)
    case ElsePart(_, body, end) => Peek(SkipItems(s, body), end)
  }

  /** The rest of a group whose body was executed: the terminator of that body is not evaluated. */
  function PassTail(s: Run, tail: Tail): (r: Run)
    ensures r.searched == s.searched
  {
    match tail
    case EndPart(_) => s
    case ElifPart(_, body, rest) => SkipTail(SkipItems(s, body), rest)
    case ElsePart(_, body, end) => Peek(SkipItems(s, body), end)
  }

  /** Does the first condition of a group hold? */
  function Taken(w: World, s: Run, first: Line): bool
    requires Opens(first)
  {
    match first
    case If(c) => w.holds(s.log, c)
    case IfDef(n) => w.known(s.log, n)
    case IfNDef(n) => !w.known(s.log, n)
  }

  function Asked(s: Run, first: Line): (r: Run)
    requires Opens(first)
    ensures r.searched == s.searched
  {
    Note(s, if first.If? then Evaluated(first.cond) else LookedUp(first.name))
  }

  /** Items of file f, executed one after another.  Of a group exactly one body is: that of the first condition
      that holds in the state at its line, or else the #else part, or else none. */
  ghost function ExecItems(w: World, s: Run, f: File, items: Items): (r: Run)
    ensures s.searched <= r.searched
    decreases w.contents.Keys - s.searched, items
  {
    match items
    case Nil => s
    case Cons(h, more) =>
      var s1 := ExecItem(w, s, f, h);
      assert w.contents.Keys - s1.searched <= w.contents.Keys - s.searched;
      ExecItems(w, s1, f, more)
  }

  ghost function ExecItem(w: World, s: Run, f: File, item: Item): (r: Run)
    ensures s.searched <= r.searched
    decreases w.contents.Keys - s.searched, item, 1
  {
    match item
    case Single(Define(t)) => Note(s, Defined(f, t))
    case Single(Undef(n)) => if n == "" then s else Note(s, Undefined(n))
    case Single(Include(t)) => ExecInclude(w, s, f, item)
    case Single(_) => s
    case Group(first, body, rest) =>
      if !Opens(first) then s
      else if Taken(w, s, first) then PassTail(ExecItems(w, Asked(s, first), f, body), rest)
      else ExecTail(w, SkipItems(Asked(s, first), body), f, rest)
    case StrayEnd(t) => Note(s, Defined(f, t))
    case StrayElse(line, body, end) => Note(Peek(SkipItems(s, body), end), Defined(f, Raw(line)))
  }

  /** The text of a terminator, which define() receives when there is no group to terminate. */
  function Raw(l: Line): string {
    match l case Elif(_, raw) => raw case Else(raw) => raw case Endif(raw) => raw case _ => ""
  }

  /** The rest of a group none of whose conditions has held so far. */
  ghost function ExecTail(w: World, s: Run, f: File, tail: Tail): (r: Run)
    ensures s.searched <= r.searched
    decreases w.contents.Keys - s.searched, tail
  {
    match tail
    case EndPart(_) => s
    case ElifPart(c, body, rest) =>
      var s1 := Peek(s, Some(c));
      if c.Elif? && w.holds(s.log, c.cond) then PassTail(ExecItems(w, s1, f, body), rest)
      else ExecTail(w, SkipItems(s1, body), f, rest)
    case ElsePart(_, body, _) => ExecItems(w, s, f, body)
  }

  /** An #include: the file it means is recorded, and read unless it has been searched before. */
  ghost function ExecInclude(w: World, s: Run, f: File, item: Item): (r: Run)
    requires item.Single? && item.line.Include?
    ensures s.searched <= r.searched
    decreases w.contents.Keys - s.searched, item, 0
  {
    var t := item.line.text;
    var s1 := Note(s, Resolved(t));
    match w.target(s.log, f, t)
    case None => s1
    case Some(g) =>
      if g !in w.contents then s1
      else
        var s2 := Note(s1, Included(f, g));
        if g in s.searched then s2
        else
          var s3 := Note(s2.(searched := s2.searched + {g}), Opened(g));
          assert g in w.contents.Keys - s.searched;
          Finish(ExecItems(w, s3, g, ParseFile(w.contents[g])), g)
  }

  // ----- the scanner itself -----

  /** struct filepointer: the lines still to be read. */
  class FilePointer {
    const lines: seq<Line>
    var at: nat

    constructor (lines: seq<Line>)
      ensures this.lines == lines && at == 0
    {
      this.lines := lines;
      at := 0;
    }

    function Rest(): (r: seq<Line>)
      reads this
    {
      if at <= |lines| then lines[at..] else []
    }

    /** getnextline */
    method Next() returns (line: Option<Line>)
      modifies this
      ensures line == First(old(Rest())) && Rest() == After(old(Rest()))
    {
      if at >= |lines| { return None; }
      line := Some(lines[at]);
      at := at + 1;
    }
  }

  /** The types find_includes and gobble return. */
  datatype Kind = KElif | KElifFalse | KElse | KEndif | KEof

  /** The kind of the terminator `end`; for an #elif, `truth` is the value of its condition if that was asked for. */
  function KindOf(end: Option<Line>, truth: bool): Kind {
    match end
    case None => KEof
    case Some(Elif(_, _)) => if truth then KElif else KElifFalse
    case Some(Else(_)) => KElse
    case Some(_) => KEndif
  }

  /** What gobble says of the terminator it stops at. */
  function Judged(w: World, s: Run, end: Option<Line>): Kind {
    KindOf(end, end.Some? && end.value.Elif? && w.holds(s.log, end.value.cond))
  }

  lemma {:induction false} SkipStep(s: Run, lines: seq<Line>)
    requires lines != [] && !Closes(lines[0]) && !Opens(lines[0])
    ensures ParseItems(lines).1 == ParseItems(lines[1..]).1
    ensures SkipItems(s, ParseItems(lines).0) == SkipItems(s, ParseItems(lines[1..]).0)
  {
  }

  lemma {:induction false} SkipGroupStep(s: Run, lines: seq<Line>)
    requires lines != [] && Opens(lines[0])
    ensures var (body, rest) := ParseItems(lines[1..]);
            var (tail, end) := ParseTail(rest);
            ParseItems(lines).1 == ParseItems(end).1
            && SkipItems(s, ParseItems(lines).0) == SkipItems(PassTail(Peek(SkipItems(s, body), First(rest)), tail), ParseItems(end).0)
  {
  }

  lemma {:induction false} PassElif(s: Run, lines: seq<Line>)
    requires lines != [] && lines[0].Elif?
    ensures var (body, rest) := ParseItems(lines[1..]);
            var (tail, end) := ParseTail(rest);
            ParseTail(lines).1 == end
            && PassTail(s, ParseTail(lines).0) == PassTail(Peek(SkipItems(s, body), First(rest)), tail)
  {
  }

  lemma {:induction false} PassElse(s: Run, lines: seq<Line>)
    requires lines != [] && lines[0].Else?
    ensures var (body, rest) := ParseItems(lines[1..]);
            ParseTail(lines).1 == After(rest)
            && PassTail(s, ParseTail(lines).0) == Peek(SkipItems(s, body), First(rest))
  {
  }

  lemma {:induction false} PassEnd(s: Run, lines: seq<Line>)
    requires lines == [] || lines[0].Endif?
    ensures ParseTail(lines).1 == After(lines) && PassTail(s, ParseTail(lines).0) == s
  {
  }

  /** The items still ahead: up to the enclosing group's terminator, or to the end of the file. */
  function Ahead(lines: seq<Line>, nested: bool): Items {
    if nested then ParseItems(lines).0 else ParseFile(lines)
  }

  /** s is the state t, or t with f finished when f has been read to its end inside an open group. */
  predicate Settled(s: Run, t: Run, f: File, rest: seq<Line>) {
    s == t || (rest == [] && s == Finish(t, f))
  }

  lemma {:induction false} AheadStep(lines: seq<Line>, nested: bool)
    requires lines != [] && !Closes(lines[0]) && !Opens(lines[0])
    ensures ParseItems(lines).1 == ParseItems(lines[1..]).1
    ensures Ahead(lines, nested) == Cons(Single(lines[0]), Ahead(lines[1..], nested))
  {
  }

  lemma {:induction false} AheadGroup(lines: seq<Line>, nested: bool)
    requires lines != [] && Opens(lines[0])
    ensures var (body, rest) := ParseItems(lines[1..]);
            var (tail, end) := ParseTail(rest);
            ParseItems(lines).1 == ParseItems(end).1
            && Ahead(lines, nested) == Cons(Group(lines[0], body, tail), Ahead(end, nested))
  {
  }

  lemma {:induction false} AheadEnd(lines: seq<Line>)
    requires lines == [] || Closes(lines[0])
    ensures ParseItems(lines) == (Nil, lines)
    ensures ParseFile(lines) ==
            if lines == [] then Nil
            else if lines[0].Endif? then Cons(StrayEnd(lines[0].raw), ParseFile(lines[1..]))
            else var (body, end) := ParseItems(lines[1..]); Cons(StrayElse(lines[0], body, First(end)), ParseFile(After(end)))
  {
  }

  lemma {:induction false} ExecStep(w: World, s: Run, f: File, h: Item, more: Items)
    ensures ExecItems(w, s, f, Cons(h, more)) == ExecItems(w, ExecItem(w, s, f, h), f, more)
    ensures ExecItems(w, s, f, Nil) == s
  {
  }

  lemma {:induction false} ExecGroup(w: World, s: Run, f: File, first: Line, body: Items, rest: Tail)
    requires Opens(first)
    ensures ExecItem(w, s, f, Group(first, body, rest)) ==
            if Taken(w, s, first) then PassTail(ExecItems(w, Asked(s, first), f, body), rest)
            else ExecTail(w, SkipItems(Asked(s, first), body), f, rest)
  {
  }

  lemma {:induction false} ExecStray(w: World, s: Run, f: File, line: Line, body: Items, end: Option<Line>)
    ensures ExecItem(w, s, f, StrayEnd(Raw(line))) == Note(s, Defined(f, Raw(line)))
    ensures ExecItem(w, s, f, StrayElse(line, body, end)) == Note(Peek(SkipItems(s, body), end), Defined(f, Raw(line)))
  {
  }

  lemma {:induction false} EndOfFile(w: World, s: Run, f: File, nested: bool, total: Run)
    requires Settled(ExecItems(w, s, f, Ahead([], nested)), total, f, [])
    ensures Finish(s, f) == Finish(total, f)
  {
  }

  /** One item executed, the run goes on from what it left. */
  lemma {:induction false} Resume(w: World, s: Run, s1: Run, f: File, h: Item, end: seq<Line>, nested: bool, total: Run)
    requires ExecItems(w, s, f, Cons(h, Ahead(end, nested))) == total
    requires Settled(s1, ExecItem(w, s, f, h), f, end)
    ensures Settled(ExecItems(w, s1, f, Ahead(end, nested)), total, f, end)
  {
    hide ExecItem, Finish;
    ExecStep(w, s, f, h, Ahead(end, nested));
    if end == [] {
      AheadEnd(end);
      ExecStep(w, s1, f, h, Nil);
    }
  }

  /** The last part of a group: an #else body, or nothing. */
  lemma {:induction false} TailLast(w: World, s: Run, f: File, lines: seq<Line>)
    requires lines == [] || lines[0].Endif? || lines[0].Else?
    ensures lines != [] && lines[0].Else? ==>
              ParseTail(lines).1 == After(ParseItems(lines[1..]).1)
              && ExecTail(w, s, f, ParseTail(lines).0) == ExecItems(w, s, f, ParseItems(lines[1..]).0)
    ensures lines == [] || lines[0].Endif? ==> ParseTail(lines).1 == After(lines) && ExecTail(w, s, f, ParseTail(lines).0) == s
  {
  }

  lemma {:induction false} TailElif(w: World, s: Run, f: File, lines: seq<Line>)
    requires lines != [] && lines[0].Elif?
    ensures var (body, rest) := ParseItems(lines[1..]);
            var (tail, end) := ParseTail(rest);
            ParseTail(lines).1 == end
            && ExecTail(w, s, f, ParseTail(lines).0) ==
               if w.holds(s.log, lines[0].cond) then PassTail(ExecItems(w, Peek(s, Some(lines[0])), f, body), tail)
               else ExecTail(w, SkipItems(Peek(s, Some(lines[0])), body), f, tail)
  {
  }

  class Scanner {
    const w: World
    var log: History
    var searched: set<File>
    var finished: set<File>

    constructor (w: World)
      ensures this.w == w && State() == Run([], {}, {})
    {
      this.w := w;
      log, searched, finished := [], {}, {};
    }

    function State(): (s: Run)
      reads this
    {
      Run(log, searched, finished)
    }

    /** deftype on an #elif line that is read while skipping */
    method EvaluateElif(line: Line) returns (k: Kind)
      requires line.Elif?
      modifies this
      ensures State() == Peek(old(State()), Some(line)) && k == Judged(w, old(State()), Some(line))
    {
      var truth := w.holds(log, line.cond);
      log := log + [Evaluated(line.cond)];
      k := if truth then KElif else KElifFalse;
    }

    /** gobble: reads on to the next terminator of the enclosing group. */
    method Gobble(fp: FilePointer) returns (k: Kind)
      modifies this, fp
      ensures var (items, rest) := ParseItems(old(fp.Rest()));
              && State() == Peek(SkipItems(old(State()), items), First(rest))
              && fp.Rest() == After(rest)
              && k == Judged(w, SkipItems(old(State()), items), First(rest))
      decreases |fp.Rest()|, 1
    {
      hide ParseItems, ParseTail, SkipItems, PassTail;
      ghost var was, items, rest := State(), ParseItems(fp.Rest()).0, ParseItems(fp.Rest()).1;
      ghost var n := |fp.Rest()|;
      while true
        invariant |fp.Rest()| <= n
        invariant SkipItems(State(), ParseItems(fp.Rest()).0) == SkipItems(was, items)
        invariant ParseItems(fp.Rest()).1 == rest
        decreases |fp.Rest()|
      {
        ghost var lines, s := fp.Rest(), State();
        var line := fp.Next();
        if line.None? {
          ItemsEnd(s, lines);
          return KEof;
        }
        if Opens(line.value) {
          SkipGroupStep(s, lines);
          k := Gobble(fp);
          SkipRest(fp, k, ParseItems(lines[1..]).1);
        } else if Closes(line.value) {
          ItemsEnd(s, lines);
          if line.value.Elif? { k := EvaluateElif(line.value); } else { k := if line.value.Else? then KElse else KEndif; }
          return;
        } else {
          SkipStep(s, lines);
        }
      }
    }

    /** while (type is an #elif) type = gobble(...); if (type == ELSE) gobble(...); */
    method SkipRest(fp: FilePointer, k0: Kind, ghost lines: seq<Line>)
      requires (lines == [] || Closes(lines[0])) && fp.Rest() == After(lines)
      requires exists truth :: k0 == KindOf(First(lines), truth)
      modifies this, fp
      ensures State() == PassTail(old(State()), ParseTail(lines).0) && fp.Rest() == ParseTail(lines).1
      decreases |fp.Rest()|, 2
    {
      hide ParseItems, ParseTail, SkipItems, PassTail;
      var k := k0;
      ghost var tail, end := ParseTail(lines).0, ParseTail(lines).1;
      ghost var here := lines;
      while k == KElif || k == KElifFalse
        invariant |fp.Rest()| <= |old(fp.Rest())|
        invariant (here == [] || Closes(here[0])) && fp.Rest() == After(here)
        invariant exists truth :: k == KindOf(First(here), truth)
        invariant PassTail(State(), ParseTail(here).0) == PassTail(old(State()), tail) && ParseTail(here).1 == end
        decreases |here|
      {
        PassElif(State(), here);
        ghost var rest := ParseItems(fp.Rest()).1;
        k := Gobble(fp);
        here := rest;
      }
      if k == KElse {
        PassElse(State(), here);
        var _ := Gobble(fp);
      } else {
        PassEnd(State(), here);
      }
    }

    /** The body of a conditional group, from behind its first line on: `taken` says whether its condition held.
        Setting `taken` is the source's `goto doif`, another round of the loop its `goto doiffalse`. */
    method Conditional(fp: FilePointer, f: File, first: bool)
      modifies this, fp
      ensures var (body, rest) := ParseItems(old(fp.Rest()));
              var (tail, end) := ParseTail(rest);
              && fp.Rest() == end
              && Settled(State(), if first then PassTail(ExecItems(w, old(State()), f, body), tail)
                                  else ExecTail(w, SkipItems(old(State()), body), f, tail), f, end)
      ensures old(searched) <= searched
      decreases w.contents.Keys - searched, |fp.Rest()|, 2
    {
      hide ParseItems, ParseTail, SkipItems, PassTail, ExecItems, ExecTail, Finish;
      var taken := first;
      ghost var goal := if first then PassTail(ExecItems(w, State(), f, ParseItems(fp.Rest()).0), ParseTail(ParseItems(fp.Rest()).1).0)
                        else ExecTail(w, SkipItems(State(), ParseItems(fp.Rest()).0), f, ParseTail(ParseItems(fp.Rest()).1).0);
      ghost var end := ParseTail(ParseItems(fp.Rest()).1).1;
      while !taken
        invariant searched == old(searched) && |fp.Rest()| <= |old(fp.Rest())|
        invariant end == ParseTail(ParseItems(fp.Rest()).1).1
        invariant goal == if taken then PassTail(ExecItems(w, State(), f, ParseItems(fp.Rest()).0), ParseTail(ParseItems(fp.Rest()).1).0)
                          else ExecTail(w, SkipItems(State(), ParseItems(fp.Rest()).0), f, ParseTail(ParseItems(fp.Rest()).1).0)
        decreases !taken, |fp.Rest()|
      {
        ghost var rest := ParseItems(fp.Rest()).1;
        ghost var s := SkipItems(State(), ParseItems(fp.Rest()).0);
        var k := Gobble(fp);
        if k == KElse {
          TailLast(w, s, f, rest);
          var _ := FindIncludes(fp, f, 1);
          return;
        } else if k == KElif || k == KElifFalse {
          TailElif(w, s, f, rest);
          taken := k == KElif;
        } else {
          TailLast(w, s, f, rest);
          return;
        }
      }
      ghost var rest := ParseItems(fp.Rest()).1;
      ghost var done := ExecItems(w, State(), f, ParseItems(fp.Rest()).0);
      var k := FindIncludes(fp, f, 1);
      if rest == [] {
        PassEnd(State(), rest);
        PassEnd(done, rest);
      }
      SkipRest(fp, k, rest);
    }

    /** add_include */
    method AddInclude(f: File, text: string, ghost n: nat)
      modifies this
      ensures State() == ExecInclude(w, old(State()), f, Single(Include(text)))
      ensures old(searched) <= searched
      decreases w.contents.Keys - searched, n, 0
    {
      hide ParseFile, ExecItems, Finish;
      var found := w.target(log, f, text);
      log := log + [Resolved(text)];
      if found.None? || found.value !in w.contents { return; }
      var g := found.value;
      log := log + [Included(f, g)];
      if g in searched { return; }
      searched := searched + {g};
      log := log + [Opened(g)];
      var content := new FilePointer(w.contents[g]);
      assert w.contents.Keys - searched < w.contents.Keys - old(searched) by {
        assert g in w.contents.Keys - old(searched);
      }
      var _ := FindIncludes(content, g, 0);
    }

    /** #if, #ifdef and #ifndef */
    method OpenGroup(fp: FilePointer, f: File, line: Line)
      requires Opens(line)
      modifies this, fp
      ensures var (body, rest) := ParseItems(old(fp.Rest()));
              var (tail, end) := ParseTail(rest);
              fp.Rest() == end && Settled(State(), ExecItem(w, old(State()), f, Group(line, body, tail)), f, end)
      ensures old(searched) <= searched
      decreases w.contents.Keys - searched, |fp.Rest()|, 3
    {
      hide ParseItems, ParseTail, SkipItems, PassTail, ExecItems, ExecItem, ExecTail, Finish;
      ExecGroup(w, State(), f, line, ParseItems(fp.Rest()).0, ParseTail(ParseItems(fp.Rest()).1).0);
      var taken;
      match line {
        case If(c) =>
          taken := w.holds(log, c);
          log := log + [Evaluated(c)];
        case IfDef(n) =>
          taken := w.known(log, n);
          log := log + [LookedUp(n)];
        case IfNDef(n) =>
          taken := !w.known(log, n);
          log := log + [LookedUp(n)];
      }
      Conditional(fp, f, taken);
    }

    /** Every directive that neither opens nor closes a group. */
    method Plain(f: File, line: Line, ghost n: nat)
      requires !Opens(line) && !Closes(line)
      modifies this
      ensures State() == ExecItem(w, old(State()), f, Single(line))
      ensures old(searched) <= searched
      decreases w.contents.Keys - searched, n, 1
    {
      hide ExecInclude;
      match line {
        case Define(t) => log := log + [Defined(f, t)];
        case Undef(name) => if name != "" { log := log + [Undefined(name)]; }
        case Include(t) => AddInclude(f, t, n);
        case _ =>
      }
    }

    /** A terminator outside every group: an #else or #elif is skipped with its body, and then the terminator's
        own line falls through to DEFINE. */
    method Stray(fp: FilePointer, f: File, line: Line)
      requires Closes(line)
      modifies this, fp
      ensures line.Endif? ==> fp.Rest() == old(fp.Rest()) && State() == ExecItem(w, old(State()), f, StrayEnd(line.raw))
      ensures !line.Endif? ==>
                var (body, rest) := ParseItems(old(fp.Rest()));
                fp.Rest() == After(rest) && State() == ExecItem(w, old(State()), f, StrayElse(line, body, First(rest)))
      ensures old(searched) == searched
    {
      hide ParseItems, SkipItems, ExecItem;
      ExecStray(w, State(), f, line, ParseItems(fp.Rest()).0, First(ParseItems(fp.Rest()).1));
      if !line.Endif? {
        var _ := Gobble(fp);
      }
      log := log + [Defined(f, Raw(line))];
    }

    /** file->i_flags |= FINISHED */
    method FinishFile(f: File)
      modifies this
      ensures State() == Finish(old(State()), f)
    {
      if f !in finished {
        log, finished := log + [Finished(f)], finished + {f};
      }
    }

    /** find_includes: executes the lines of f, down to the terminator of the enclosing group if recursion > 0. */
    method FindIncludes(fp: FilePointer, f: File, recursion: nat) returns (k: Kind)
      modifies this, fp
      ensures recursion > 0 ==>
                var (items, rest) := ParseItems(old(fp.Rest()));
                && fp.Rest() == After(rest) && k == KindOf(First(rest), true)
                && State() == if rest == [] then Finish(ExecItems(w, old(State()), f, items), f) else ExecItems(w, old(State()), f, items)
      ensures recursion == 0 ==>
                && fp.Rest() == [] && k == KEof
                && State() == Finish(ExecItems(w, old(State()), f, ParseFile(old(fp.Rest()))), f)
      ensures old(searched) <= searched
      decreases w.contents.Keys - searched, |fp.Rest()|, 1
    {
      hide ParseItems, ParseTail, ParseFile, SkipItems, PassTail, ExecItems, ExecItem, ExecTail, Finish;
      ghost var nested := recursion > 0;
      ghost var total := ExecItems(w, State(), f, Ahead(fp.Rest(), nested));
      ghost var rest := ParseItems(fp.Rest()).1;
      while true
        invariant |fp.Rest()| <= |old(fp.Rest())| && old(searched) <= searched
        invariant nested ==> ParseItems(fp.Rest()).1 == rest
        invariant Settled(ExecItems(w, State(), f, Ahead(fp.Rest(), nested)), total, f, fp.Rest())
        decreases |fp.Rest()|
      {
        ghost var lines, s := fp.Rest(), State();
        var line := fp.Next();
        if line.None? {
          EndOfFile(w, s, f, nested, total);
          FinishFile(f);
          return KEof;
        }
        if Opens(line.value) {
          AheadGroup(lines, nested);
          OpenGroup(fp, f, line.value);
          Resume(w, s, State(), f, Group(line.value, ParseItems(lines[1..]).0, ParseTail(ParseItems(lines[1..]).1).0), fp.Rest(), nested, total);
        } else if Closes(line.value) {
          AheadEnd(lines);
          ExecStep(w, s, f, Single(Other), Nil);
          if recursion > 0 {
            return if line.value.Endif? then KEndif else if line.value.Else? then KElse else KElif;
          }
          Stray(fp, f, line.value);
          Resume(w, s, State(), f,
                 if line.value.Endif? then StrayEnd(line.value.raw) else StrayElse(line.value, ParseItems(lines[1..]).0, First(ParseItems(lines[1..]).1)),
                 fp.Rest(), nested, total);
        } else {
          AheadStep(lines, nested);
          Plain(f, line.value, |fp.Rest()|);
          Resume(w, s, State(), f, Single(line.value), fp.Rest(), nested, total);
        }
      }
    }
  }

  lemma {:induction false} ItemsEnd(s: Run, lines: seq<Line>)
    requires lines == [] || Closes(lines[0])
    ensures ParseItems(lines) == (Nil, lines) && SkipItems(s, Nil) == s
  {
  }

  // ----- the tree is the text -----

  function Ending(end: Option<Line>, rest: seq<Line>): seq<Line> {
    if end.None? then rest else [end.value] + rest
  }

  /** The lines of a tree, followed by `rest`. */
  function Lines(items: Items, rest: seq<Line>): seq<Line>
    decreases items
  {
    match items
    case Nil => rest
    case Cons(Single(l), more) => [l] + Lines(more, rest)
    case Cons(Group(first, body, tail), more) => [first] + Lines(body, TailLines(tail, Lines(more, rest)))
    case Cons(StrayEnd(raw), more) => [Endif(raw)] + Lines(more, rest)
    case Cons(StrayElse(line, body, end), more) => [line] + Lines(body, Ending(end, Lines(more, rest)))
  }

  function TailLines(tail: Tail, rest: seq<Line>): seq<Line>
    decreases tail
  {
    match tail
    case EndPart(end) => Ending(end, rest)
    case ElifPart(line, body, more) => [line] + Lines(body, TailLines(more, rest))
    case ElsePart(line, body, end) => [line] + Lines(body, Ending(end, rest))
  }

  /** Reading a stream as a tree loses nothing: its lines are the stream. */
  lemma {:induction false} LinesOfItems(lines: seq<Line>)
    ensures Lines(ParseItems(lines).0, ParseItems(lines).1) == lines
    decreases |lines|, 0
  {
    if lines != [] && !Closes(lines[0]) {
      if Opens(lines[0]) {
        LinesOfGroup(lines, ParseItems(ParseGroup(lines).1).0, ParseItems(ParseGroup(lines).1).1);
      } else {
        LinesOfItems(lines[1..]);
      }
    }
  }

  lemma {:induction false} LinesOfGroup(lines: seq<Line>, more: Items, rest: seq<Line>)
    requires lines != [] && Opens(lines[0])
    requires (more, rest) == ParseItems(ParseGroup(lines).1)
    ensures Lines(Cons(ParseGroup(lines).0, more), rest) == lines
    decreases |lines| - 1, 2
  {
    hide ParseItems, ParseTail;
    var (body, r1) := ParseItems(lines[1..]);
    var (tail, end) := ParseTail(r1);
    LinesOfItems(lines[1..]);
    LinesOfItems(end);
    LinesOfTail(r1);
  }

  lemma {:induction false} EndingFirst(lines: seq<Line>)
    ensures Ending(First(lines), After(lines)) == lines
  {
  }

  lemma {:induction false} LinesOfTail(lines: seq<Line>)
    requires lines == [] || Closes(lines[0])
    ensures TailLines(ParseTail(lines).0, ParseTail(lines).1) == lines
    decreases |lines|, 1
  {
    EndingFirst(lines);
    if lines != [] && !lines[0].Endif? {
      LinesOfItems(lines[1..]);
      var rest := ParseItems(lines[1..]).1;
      if lines[0].Elif? { LinesOfTail(rest); } else { EndingFirst(rest); }
    }
  }

  lemma {:induction false} LinesAppend(a: Items, b: Items)
    ensures Lines(Append(a, b), []) == Lines(a, Lines(b, []))
  {
    match a
    case Nil =>
    case Cons(_, more) => LinesAppend(more, b);
  }

  lemma {:induction false} LinesOfFile(lines: seq<Line>)
    ensures Lines(ParseFile(lines), []) == lines
    decreases |lines|
  {
    LinesOfItems(lines);
    var (items, rest) := ParseItems(lines);
    if rest != [] {
      EndingFirst(rest);
      if rest[0].Endif? {
        LinesOfFile(rest[1..]);
        LinesAppend(items, Cons(StrayEnd(rest[0].raw), ParseFile(rest[1..])));
      } else {
        var (body, end) := ParseItems(rest[1..]);
        LinesOfItems(rest[1..]);
        EndingFirst(end);
        LinesOfFile(After(end));
        LinesAppend(items, Cons(StrayElse(rest[0], body, First(end)), ParseFile(After(end))));
      }
    }
  }

  /** A tree of properly nested groups: every group has its #endif and at most one #else, and nothing is out of place. */
  predicate Nested(items: Items)
    decreases items
  {
    match items
    case Nil => true
    case Cons(Single(l), more) => !Opens(l) && !Closes(l) && Nested(more)
    case Cons(Group(first, body, tail), more) => Opens(first) && Nested(body) && NestedTail(tail) && Nested(more)
    case Cons(_, _) => false
  }

  predicate NestedTail(tail: Tail)
    decreases tail
  {
    match tail
    case EndPart(end) => end.Some? && end.value.Endif?
    case ElifPart(line, body, more) => line.Elif? && Nested(body) && NestedTail(more)
    case ElsePart(line, body, end) => line.Else? && Nested(body) && end.Some? && end.value.Endif?
  }

  /** The lines of a properly nested tree are read back as that tree, up to the terminator behind it. */
  lemma {:induction false} ItemsOfLines(items: Items, rest: seq<Line>)
    requires Nested(items) && (rest == [] || Closes(rest[0]))
    ensures ParseItems(Lines(items, rest)) == (items, rest)
    decreases items
  {
    match items
    case Nil =>
    case Cons(Single(l), more) =>
      assert ([l] + Lines(more, rest))[1..] == Lines(more, rest);
      ItemsOfLines(more, rest);
    case Cons(Group(first, body, tail), more) =>
      var end := Lines(more, rest);
      var lines := [first] + Lines(body, TailLines(tail, end));
      assert lines[1..] == Lines(body, TailLines(tail, end));
      TailCloses(tail, end);
      ItemsOfLines(body, TailLines(tail, end));
      TailOfLines(tail, end);
      ItemsOfLines(more, rest);
  }

  lemma {:induction false} TailCloses(tail: Tail, rest: seq<Line>)
    requires NestedTail(tail)
    ensures TailLines(tail, rest) != [] && Closes(TailLines(tail, rest)[0])
  {
  }

  lemma {:induction false} TailOfLines(tail: Tail, rest: seq<Line>)
    requires NestedTail(tail)
    ensures TailLines(tail, rest) != [] && Closes(TailLines(tail, rest)[0])
    ensures ParseTail(TailLines(tail, rest)) == (tail, rest)
    decreases tail
  {
    TailCloses(tail, rest);
    match tail
    case EndPart(end) => assert ([end.value] + rest)[1..] == rest;
    case ElifPart(line, body, more) =>
      var inner := Lines(body, TailLines(more, rest));
      assert ([line] + inner)[1..] == inner;
      TailCloses(more, rest);
      ItemsOfLines(body, TailLines(more, rest));
      TailOfLines(more, rest);
    case ElsePart(line, body, end) =>
      var inner := Lines(body, [end.value] + rest);
      assert ([line] + inner)[1..] == inner && ([end.value] + rest)[1..] == rest;
      ItemsOfLines(body, [end.value] + rest);
  }

  /** The scanner therefore executes every properly nested file as the tree it was written from. */
  lemma {:induction false} FileOfLines(items: Items)
    requires Nested(items)
    ensures ParseFile(Lines(items, [])) == items
  {
    ItemsOfLines(items, []);
  }

  // ----- when a terminator is out of place -----

  predicate NoStray(items: Items) {
    match items
    case Nil => true
    case Cons(h, more) => !h.StrayEnd? && !h.StrayElse? && NoStray(more)
  }

  /** No terminator comes without an open group.  `open` tells of every open group, the innermost first, whether the #else
      in it has been read; then any terminator closes it. */
  predicate Clean(lines: seq<Line>, open: seq<bool>) {
    if lines == [] then true
    else if Opens(lines[0]) then Clean(lines[1..], [false] + open)
    else if !Closes(lines[0]) then Clean(lines[1..], open)
    else open != [] && Clean(lines[1..], if open[0] || lines[0].Endif? then open[1..]
                                         else if lines[0].Else? then [true] + open[1..] else open)
  }

  lemma {:induction false} CleanItems(lines: seq<Line>, open: seq<bool>)
    ensures Clean(lines, open) == Clean(ParseItems(lines).1, open)
    ensures NoStray(ParseItems(lines).0)
    decreases |lines|, 0
  {
    if lines != [] && !Closes(lines[0]) {
      if Opens(lines[0]) {
        CleanItems(lines[1..], [false] + open);
        CleanTail(ParseItems(lines[1..]).1, open);
        CleanItems(ParseGroup(lines).1, open);
      } else {
        CleanItems(lines[1..], open);
      }
    }
  }

  lemma {:induction false} CleanTail(lines: seq<Line>, open: seq<bool>)
    requires lines == [] || Closes(lines[0])
    ensures Clean(lines, [false] + open) == Clean(ParseTail(lines).1, open)
    decreases |lines|, 1
  {
    assert ([false] + open)[1..] == open;
    if lines != [] && !lines[0].Endif? {
      CleanItems(lines[1..], [lines[0].Else?] + open);
      if lines[0].Elif? {
        CleanTail(ParseItems(lines[1..]).1, open);
      } else {
        assert ([true] + open)[1..] == open;
      }
    }
  }

  lemma {:induction false} StrayStays(a: Items, b: Items)
    ensures NoStray(Append(a, b)) <==> NoStray(a) && NoStray(b)
  {
    if a.Cons? { StrayStays(a.tail, b); }
  }

  /** A terminator of a file is executed as a #define exactly when it comes without an open group. */
  lemma {:induction false} StrayIff(lines: seq<Line>)
    ensures NoStray(ParseFile(lines)) <==> Clean(lines, [])
  {
    CleanItems(lines, []);
    var (items, rest) := ParseItems(lines);
    if rest != [] {
      if rest[0].Endif? {
        StrayStays(items, Cons(StrayEnd(rest[0].raw), ParseFile(rest[1..])));
      } else {
        var (body, end) := ParseItems(rest[1..]);
        StrayStays(items, Cons(StrayElse(rest[0], body, First(end)), ParseFile(After(end))));
      }
    }
  }

  /** The shortest file of that kind. */
  lemma {:induction false} LoneEndif(w: World, s: Run, f: File, raw: string)
    ensures !Clean([Endif(raw)], []) && ExecItems(w, s, f, ParseFile([Endif(raw)])) == Note(s, Defined(f, raw))
  {
    var lines := [Endif(raw)];
    assert lines[1..] == [] && ParseFile([]) == Nil;
    assert ParseFile(lines) == Cons(StrayEnd(raw), Nil);
    assert ExecItem(w, s, f, StrayEnd(raw)) == Note(s, Defined(f, raw));
    assert ExecItems(w, Note(s, Defined(f, raw)), f, Nil) == Note(s, Defined(f, raw));
  }

  /** Behind its #else a group is closed by any terminator, and the #endif is left over. */
  lemma {:induction false} SecondElse(name: string, raw: string)
    ensures ParseFile([IfDef(name), Else("#else"), Else("#else"), Endif(raw)])
         == Cons(Group(IfDef(name), Nil, ElsePart(Else("#else"), Nil, Some(Else("#else")))), Cons(StrayEnd(raw), Nil))
  {
    var e := Else("#else");
    var last := [Endif(raw)];
    assert last[1..] == [] && ParseFile([]) == Nil && ParseItems([]) == (Nil, []);
    assert [e, Endif(raw)][1..] == last && ParseItems([e, Endif(raw)]) == (Nil, [e, Endif(raw)]);
    var tail := [e, e, Endif(raw)];
    assert tail[1..] == [e, Endif(raw)] && ParseItems(tail) == (Nil, tail);
    assert ParseTail(tail) == (ElsePart(e, Nil, Some(e)), last);
    var lines := [IfDef(name), e, e, Endif(raw)];
    assert lines[1..] == tail && ParseItems(last) == (Nil, last);
    assert ParseGroup(lines) == (Group(IfDef(name), Nil, ElsePart(e, Nil, Some(e))), last);
    assert ParseItems(lines) == (Cons(Group(IfDef(name), Nil, ElsePart(e, Nil, Some(e))), Nil), last);
    assert Append(Cons(Group(IfDef(name), Nil, ElsePart(e, Nil, Some(e))), Nil), Cons(StrayEnd(raw), Nil))
        == Cons(Group(IfDef(name), Nil, ElsePart(e, Nil, Some(e))), Cons(StrayEnd(raw), Nil));
  }

  // ----- what skipping and including can do -----

  /** Skipping has no effect but the evaluation of #elif conditions. */
  lemma {:induction false} SkipOnlyEvaluates(s: Run, items: Items)
    ensures var r := SkipItems(s, items);
            r.finished == s.finished && s.log <= r.log && forall i :: |s.log| <= i < |r.log| ==> r.log[i].Evaluated?
    decreases items
  {
    match items
    case Nil =>
    case Cons(Group(_, body, tail), more) =>
      SkipOnlyEvaluates(s, body);
      TailOnlyEvaluates(SkipItems(s, body), tail);
      SkipOnlyEvaluates(SkipTail(SkipItems(s, body), tail), more);
    case Cons(_, more) => SkipOnlyEvaluates(s, more);
  }

  lemma {:induction false} TailOnlyEvaluates(s: Run, tail: Tail)
    ensures var r := SkipTail(s, tail);
            r.finished == s.finished && s.log <= r.log && forall i :: |s.log| <= i < |r.log| ==> r.log[i].Evaluated?
    decreases tail
  {
    match tail
    case EndPart(_) =>
    case ElifPart(c, body, rest) =>
      SkipOnlyEvaluates(Peek(s, Some(c)), body);
      TailOnlyEvaluates(SkipItems(Peek(s, Some(c)), body), rest);
    case ElsePart(_, body, end) => SkipOnlyEvaluates(s, body);
  }

  /** No file is opened twice, only searched files are, and every file that was included has been searched. */
  predicate Tidy(s: Run) {
    && (forall i :: 0 <= i < |s.log| && s.log[i].Opened? ==> s.log[i].file in s.searched)
    && (forall i :: 0 <= i < |s.log| && s.log[i].Included? ==> s.log[i].file in s.searched)
    && (forall i, j :: 0 <= i < j < |s.log| && s.log[i].Opened? ==> s.log[j] != s.log[i])
  }

  /** Between Tidy states only harmless events were added. */
  predicate Harmless(s: Run, r: Run) {
    r.searched == s.searched && s.log <= r.log
    && forall i :: |s.log| <= i < |r.log| ==> !r.log[i].Opened? && !r.log[i].Included?
  }

  lemma {:induction false} HarmlessTidy(s: Run, r: Run)
    requires Tidy(s) && Harmless(s, r)
    ensures Tidy(r)
  {
  }

  lemma {:induction false} PassHarmless(s: Run, tail: Tail)
    ensures Harmless(s, PassTail(s, tail))
  {
    match tail
    case EndPart(_) =>
    case ElifPart(_, body, rest) =>
      SkipOnlyEvaluates(s, body);
      TailOnlyEvaluates(SkipItems(s, body), rest);
    case ElsePart(_, body, end) => SkipOnlyEvaluates(s, body);
  }

  lemma {:induction false} ItemsTidy(w: World, s: Run, f: File, items: Items)
    requires Tidy(s)
    ensures Tidy(ExecItems(w, s, f, items))
    decreases w.contents.Keys - s.searched, items, 2
  {
    if items.Cons? {
      ItemTidy(w, s, f, items.head);
      var s1 := ExecItem(w, s, f, items.head);
      assert w.contents.Keys - s1.searched <= w.contents.Keys - s.searched;
      ItemsTidy(w, s1, f, items.tail);
    }
  }

  lemma {:induction false} ItemTidy(w: World, s: Run, f: File, item: Item)
    requires Tidy(s)
    ensures Tidy(ExecItem(w, s, f, item))
    decreases w.contents.Keys - s.searched, item, 1
  {
    hide ExecItems, ExecTail, ExecInclude, PassTail, SkipItems;
    match item
    case Single(Include(t)) => IncludeTidy(w, s, f, item);
    case Single(_) => HarmlessTidy(s, ExecItem(w, s, f, item));
    case Group(first, body, rest) =>
      if Opens(first) {
        HarmlessTidy(s, Asked(s, first));
        ExecGroup(w, s, f, first, body, rest);
        if Taken(w, s, first) {
          ItemsTidy(w, Asked(s, first), f, body);
          var s1 := ExecItems(w, Asked(s, first), f, body);
          PassHarmless(s1, rest);
          HarmlessTidy(s1, PassTail(s1, rest));
        } else {
          SkipOnlyEvaluates(Asked(s, first), body);
          HarmlessTidy(Asked(s, first), SkipItems(Asked(s, first), body));
          TailTidy(w, SkipItems(Asked(s, first), body), f, rest);
        }
      }
    case StrayEnd(_) => HarmlessTidy(s, ExecItem(w, s, f, item));
    case StrayElse(_, body, _) =>
      SkipOnlyEvaluates(s, body);
      HarmlessTidy(s, ExecItem(w, s, f, item));
  }

  lemma {:induction false} TailTidy(w: World, s: Run, f: File, tail: Tail)
    requires Tidy(s)
    ensures Tidy(ExecTail(w, s, f, tail))
    decreases w.contents.Keys - s.searched, tail, 1
  {
    hide ExecItems, PassTail, SkipItems;
    match tail
    case EndPart(_) =>
    case ElifPart(c, body, rest) =>
      var s1 := Peek(s, Some(c));
      HarmlessTidy(s, s1);
      if c.Elif? && w.holds(s.log, c.cond) {
        ItemsTidy(w, s1, f, body);
        PassHarmless(ExecItems(w, s1, f, body), rest);
        HarmlessTidy(ExecItems(w, s1, f, body), PassTail(ExecItems(w, s1, f, body), rest));
      } else {
        SkipOnlyEvaluates(s1, body);
        HarmlessTidy(s1, SkipItems(s1, body));
        TailTidy(w, SkipItems(s1, body), f, rest);
      }
    case ElsePart(_, body, _) => ItemsTidy(w, s, f, body);
  }

  lemma {:induction false} IncludeTidy(w: World, s: Run, f: File, item: Item)
    requires Tidy(s) && item.Single? && item.line.Include?
    ensures Tidy(ExecInclude(w, s, f, item))
    decreases w.contents.Keys - s.searched, item, 0
  {
    hide ExecItems, ParseFile;
    var s1 := Note(s, Resolved(item.line.text));
    match w.target(s.log, f, item.line.text)
    case None =>
    case Some(g) =>
      if g in w.contents && g !in s.searched {
        var s3 := Note(Note(s1, Included(f, g)).(searched := s.searched + {g}), Opened(g));
        assert g in w.contents.Keys - s.searched;
        assert Tidy(s3);
        ItemsTidy(w, s3, g, ParseFile(w.contents[g]));
        HarmlessTidy(ExecItems(w, s3, g, ParseFile(w.contents[g])), Finish(ExecItems(w, s3, g, ParseFile(w.contents[g])), g));
      }
  }

  /** Over a whole run from a fresh start, cyclic includes or not, every file is read at most once. */
  lemma {:induction false} EveryFileOpenedOnce(w: World, f: File)
    ensures Tidy(Finish(ExecItems(w, Run([], {}, {}), f, ParseFile(if f in w.contents then w.contents[f] else [])), f))
  {
    hide ExecItems, ParseFile;
    var items := ParseFile(if f in w.contents then w.contents[f] else []);
    ItemsTidy(w, Run([], {}, {}), f, items);
    HarmlessTidy(ExecItems(w, Run([], {}, {}), f, items), Finish(ExecItems(w, Run([], {}, {}), f, items), f));
  }
}
