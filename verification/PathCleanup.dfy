/** remove_dotdot of makedepend's include.c: cancels the x/.. pairs of a path. */
module PathCleanup {

  datatype Option<T> = None | Some(value: T)

  // ----- paths and what they name -----

  /** The length of the leading run without a slash. */
  function Name(s: string): (k: nat)
    ensures k <= |s| && '/' !in s[..k] && (k < |s| ==> s[k] == '/')
  {
    if s == "" || s[0] == '/' then 0 else
    assert s[1..][..Name(s[1..])] == s[..1 + Name(s[1..])][1..];
    1 + Name(s[1..])
  }

  /** The components of a path; runs of slashes separate them. */
  function Components(s: string): (c: seq<string>)
    ensures forall i :: 0 <= i < |c| ==> c[i] != "" && '/' !in c[i]
    decreases |s|
  {
    if s == "" then []
    else if s[0] == '/' then Components(s[1..])
    else [s[..Name(s)]] + Components(s[Name(s)..])
  }

  /** A file system: the entries of directories, the parent of every directory, and the root. */
  datatype FileSystem = FileSystem(root: int, entries: map<(int, string), int>, parents: map<int, int>)

  function Step(fs: FileSystem, d: int, x: string): Option<int> {
    if x == "." then Some(d)
    else if x == ".." then Some(if d in fs.parents then fs.parents[d] else d)
    else if (d, x) in fs.entries then Some(fs.entries[(d, x)])
    else None
  }

  function Walk(fs: FileSystem, d: int, c: seq<string>): Option<int>
    decreases |c|
  {
    if c == [] then Some(d)
    else if Step(fs, d, c[0]).None? then None
    else Walk(fs, Step(fs, d, c[0]).value, c[1..])
  }

  /** What a path names, seen from the directory d.  The empty path names nothing. */
  function Resolve(fs: FileSystem, d: int, path: string): Option<int> {
    if path == "" then None
    else Walk(fs, if path[0] == '/' then fs.root else d, Components(path))
  }

  lemma {:induction false} WalkJoin(fs: FileSystem, d: int, a: seq<string>, b: seq<string>)
    ensures Walk(fs, d, a + b) == if Walk(fs, d, a).None? then None else Walk(fs, Walk(fs, d, a).value, b)
    decreases |a|
  {
    if a == [] {
      assert a + b == b;
    } else {
      assert (a + b)[1..] == a[1..] + b;
      if Step(fs, d, a[0]).Some? { WalkJoin(fs, Step(fs, d, a[0]).value, a[1..], b); }
    }
  }

  // ----- cancelling -----

  /** What lstat calls a symbolic link, and the directory string that issymbolic puts before the name it asks about. */
  datatype Links = Links(dir: string, paths: set<string>)

  /** issymbolic */
  predicate Symbolic(l: Links, x: string) {
    l.dir + (if l.dir == "" then "" else "/") + x in l.paths
  }

  /** x/.. may be cancelled: x is no dot name and was not taken for a symbolic link. */
  predicate Removable(x: string, l: Links) {
    x != "." && x != ".." && !Symbolic(l, x)
  }

  /** Cancelling with a stack: a ".." takes a removable name off it. */
  function Cancel(stack: seq<string>, rest: seq<string>, l: Links): seq<string>
    decreases |rest|
  {
    if rest == [] then stack
    else if rest[0] == ".." && stack != [] && Removable(stack[|stack| - 1], l) then
      Cancel(stack[..|stack| - 1], rest[1..], l)
    else Cancel(stack + [rest[0]], rest[1..], l)
  }

  /** No pair that could be cancelled is left. */
  predicate Cancelled(c: seq<string>, l: Links) {
    forall i :: 0 < i < |c| && c[i] == ".." ==> !Removable(c[i - 1], l)
  }

  lemma {:induction false} CancelLeavesNone(stack: seq<string>, rest: seq<string>, l: Links)
    requires Cancelled(stack, l)
    ensures Cancelled(Cancel(stack, rest, l), l)
    decreases |rest|
  {
    if rest != [] {
      if rest[0] == ".." && stack != [] && Removable(stack[|stack| - 1], l) {
        CancelLeavesNone(stack[..|stack| - 1], rest[1..], l);
      } else {
        CancelLeavesNone(stack + [rest[0]], rest[1..], l);
      }
    }
  }

  /** For every name not taken for a symbolic link, the parent undoes the child. */
  ghost predicate ParentUndoesChild(fs: FileSystem, l: Links) {
    forall d, x :: (d, x) in fs.entries && Removable(x, l) ==> Step(fs, fs.entries[(d, x)], "..") == Some(d)
  }

  lemma {:induction false} CancelKeeps(fs: FileSystem, d: int, stack: seq<string>, rest: seq<string>, l: Links)
    requires ParentUndoesChild(fs, l) && Walk(fs, d, stack + rest).Some?
    ensures Walk(fs, d, Cancel(stack, rest, l)) == Walk(fs, d, stack + rest)
    decreases |rest|
  {
    if rest == [] {
      assert stack + rest == stack;
    } else if rest[0] == ".." && stack != [] && Removable(stack[|stack| - 1], l) {
      var below, x := stack[..|stack| - 1], stack[|stack| - 1];
      assert stack + rest == below + ([x, ".."] + rest[1..]);
      WalkJoin(fs, d, below, [x, ".."] + rest[1..]);
      WalkJoin(fs, d, below, rest[1..]);
      var e := Walk(fs, d, below).value;
      assert ([x, ".."] + rest[1..])[1..] == [".."] + rest[1..];
      assert ([".."] + rest[1..])[1..] == rest[1..];
      CancelKeeps(fs, d, below, rest[1..], l);
    } else {
      assert stack + rest == (stack + [rest[0]]) + rest[1..];
      CancelKeeps(fs, d, stack + [rest[0]], rest[1..], l);
    }
  }

  ghost predicate CancelKeepsAll(fs: FileSystem, l: Links) {
    forall d: int, c: seq<string> :: Walk(fs, d, c).Some? ==> Walk(fs, d, Cancel([], c, l)) == Walk(fs, d, c)
  }

  /** Cancelling keeps what every path names, from every directory, exactly when the parent undoes the child for every
      name that is not taken for a symbolic link. */
  lemma {:induction false} CancelKeepsIff(fs: FileSystem, l: Links)
    ensures ParentUndoesChild(fs, l) <==> CancelKeepsAll(fs, l)
  {
    if ParentUndoesChild(fs, l) {
      forall d: int, c: seq<string> | Walk(fs, d, c).Some? ensures Walk(fs, d, Cancel([], c, l)) == Walk(fs, d, c) {
        assert [] + c == c;
        CancelKeeps(fs, d, [], c, l);
      }
    }
    if CancelKeepsAll(fs, l) {
      forall d, x | (d, x) in fs.entries && Removable(x, l) ensures Step(fs, fs.entries[(d, x)], "..") == Some(d) {
        PairCancels(fs, d, x, l);
        assert Walk(fs, d, [x, ".."]).Some? && Walk(fs, d, Cancel([], [x, ".."], l)) == Some(d);
      }
    }
  }

  lemma {:induction false} PairCancels(fs: FileSystem, d: int, x: string, l: Links)
    requires (d, x) in fs.entries && Removable(x, l)
    ensures Walk(fs, d, [x, ".."]) == Step(fs, fs.entries[(d, x)], "..")
    ensures Cancel([], [x, ".."], l) == []
  {
    assert [x, ".."][1..] == [".."] && [".."][1..] == [];
    assert [] + [x] == [x] && [x][..0] == [];
    assert Cancel([x], [".."], l) == Cancel([], [], l);
  }

  // ----- the whole path -----

  function Join(c: seq<string>): string {
    if c == [] then ""
    else if |c| == 1 then c[0]
    else c[0] + "/" + Join(c[1..])
  }

  function Lead(path: string): string {
    if path != "" && path[0] == '/' then "/" else ""
  }

  /** The components as remove_dotdot slices them. */
  function Slices(path: string): seq<string> {
    if path == "" then [""] else Components(path)
  }

  /** remove_dotdot; the links are always asked for in the root or in the working directory. */
  function Cleaned(path: string, links: set<string>): string {
    Lead(path) + Join(Cancel([], Slices(path), Links(Lead(path), links)))
  }

  predicate Plain(c: seq<string>) {
    forall i :: 0 <= i < |c| ==> c[i] != "" && '/' !in c[i]
  }

  lemma {:induction false} CancelPlain(stack: seq<string>, rest: seq<string>, l: Links)
    requires Plain(stack) && Plain(rest)
    ensures Plain(Cancel(stack, rest, l))
    decreases |rest|
  {
    if rest != [] {
      if rest[0] == ".." && stack != [] && Removable(stack[|stack| - 1], l) {
        CancelPlain(stack[..|stack| - 1], rest[1..], l);
      } else {
        CancelPlain(stack + [rest[0]], rest[1..], l);
      }
    }
  }

  lemma {:induction false} NameOf(x: string, rest: string)
    requires '/' !in x && (rest != "" ==> rest[0] == '/')
    ensures Name(x + rest) == |x|
  {
    if x == "" {
      assert x + rest == rest;
    } else {
      assert (x + rest)[0] == x[0] && (x + rest)[1..] == x[1..] + rest;
      NameOf(x[1..], rest);
    }
  }

  lemma {:induction false} FirstComponent(x: string, rest: string)
    requires x != "" && '/' !in x && (rest != "" ==> rest[0] == '/')
    ensures Components(x + rest) == [x] + Components(rest)
  {
    NameOf(x, rest);
    assert (x + rest)[..|x|] == x && (x + rest)[|x|..] == rest && (x + rest)[0] == x[0];
  }

  /** Splitting what was joined gives the components back. */
  lemma {:induction false} JoinSplits(c: seq<string>)
    requires Plain(c)
    ensures Components(Join(c)) == c
    ensures c != [] ==> Join(c) != "" && Join(c)[0] != '/'
  {
    if |c| == 1 {
      assert Join(c) == c[0] + "";
      FirstComponent(c[0], "");
    } else if c != [] {
      JoinSplits(c[1..]);
      var rest := "/" + Join(c[1..]);
      assert Join(c) == c[0] + rest;
      assert rest[1..] == Join(c[1..]);
      FirstComponent(c[0], rest);
    }
  }

  /** The cleaned path names what the path named - except that a relative path of which nothing is left becomes the
      empty string, which names nothing. */
  lemma {:induction false} CleanedKeeps(fs: FileSystem, d: int, path: string, links: set<string>)
    requires ParentUndoesChild(fs, Links(Lead(path), links)) && Resolve(fs, d, path).Some?
    ensures Resolve(fs, d, Cleaned(path, links)) ==
              if Lead(path) == "" && Cancel([], Components(path), Links("", links)) == [] then None else Resolve(fs, d, path)
    ensures Cancelled(Components(Cleaned(path, links)), Links(Lead(path), links))
  {
    var l := Links(Lead(path), links);
    var c := Cancel([], Components(path), l);
    var d0 := if path[0] == '/' then fs.root else d;
    assert [] + Components(path) == Components(path);
    CancelKeeps(fs, d0, [], Components(path), l);
    CancelPlain([], Components(path), l);
    JoinSplits(c);
    CancelLeavesNone([], Components(path), l);
    if Lead(path) == "/" {
      assert Cleaned(path, links)[0] == '/' && Cleaned(path, links)[1..] == Join(c);
    } else {
      assert Cleaned(path, links) == Join(c);
    }
  }

  lemma {:induction false} LinkPath()
    ensures Components("d/l/../f") == ["d", "l", "..", "f"] && Components("d/f") == ["d", "f"] == Components(Join(["d", "f"]))
    ensures Join(["d", "f"]) == "d/f"
  {
    var c, e := ["d", "l", "..", "f"], ["d", "f"];
    assert c[1..] == ["l", "..", "f"] && c[1..][1..] == ["..", "f"] && ["..", "f"][1..] == ["f"] && ["f"][1..] == [] && e[1..] == ["f"];
    assert Join(["f"]) == "f" && Join(["..", "f"]) == "../f" && Join(c[1..]) == "l/../f";
    assert Join(c) == "d/l/../f" && Join(e) == "d/f";
    JoinSplits(c);
    JoinSplits(e);
  }

  lemma {:induction false} LinkCancels()
    ensures Cancel([], ["d", "l", "..", "f"], Links("", {"d/l"})) == ["d", "f"]
  {
    hide Removable;
    var c, l := ["d", "l", "..", "f"], Links("", {"d/l"});
    assert c[1..] == ["l", "..", "f"] && c[1..][1..] == ["..", "f"] && ["..", "f"][1..] == ["f"] && ["f"][1..] == [];
    assert [] + ["d"] == ["d"] && ["d"] + ["l"] == ["d", "l"] && ["d", "l"][..1] == ["d"] && ["d"] + ["f"] == ["d", "f"];
    NotALink(l);
    assert Cancel(["d", "l"], ["..", "f"], l) == Cancel(["d"], ["f"], l) == Cancel(["d", "f"], [], l);
    assert Cancel(["d"], ["l", "..", "f"], l) == Cancel(["d", "l"], ["..", "f"], l);
  }

  lemma {:induction false} NotALink(l: Links)
    requires l == Links("", {"d/l"})
    ensures Removable("l", l)
  {
    assert "" + "" + "l" == "l" && |"l"| == 1 && |"d/l"| == 3;
  }

  /** The link is looked for in the working directory and not where it is: d/l/../f is cleaned although d/l is a link
      that leads elsewhere, and names another file then. */
  lemma {:induction false} LinkBelowIsMissed()
    ensures var fs := FileSystem(0, map[(1, "d") := 2, (2, "l") := 3, (4, "f") := 5, (2, "f") := 6], map[2 := 1, 3 := 4]);
            && Cleaned("d/l/../f", {"d/l"}) == "d/f"
            && Resolve(fs, 1, "d/l/../f") == Some(5) && Resolve(fs, 1, "d/f") == Some(6)
  {
    LinkPath();
    LinkCancels();
    hide Components, Join, Cancel;
    assert Lead("d/l/../f") + "d/f" == "d/f";
    var c, e := ["d", "l", "..", "f"], ["d", "f"];
    assert c[1..] == ["l", "..", "f"] && c[1..][1..] == ["..", "f"] && ["..", "f"][1..] == ["f"] && ["f"][1..] == [] && e[1..] == ["f"];
    var fs := FileSystem(0, map[(1, "d") := 2, (2, "l") := 3, (4, "f") := 5, (2, "f") := 6], map[2 := 1, 3 := 4]);
    assert Walk(fs, 4, ["f"]) == Some(5) && Walk(fs, 2, ["f"]) == Some(6);
    assert Walk(fs, 3, ["..", "f"]) == Some(5);
    assert Walk(fs, 2, ["l", "..", "f"]) == Some(5);
  }

  /** Nothing is left of d/.. but the empty string. */
  lemma {:induction false} NothingIsLeft()
    ensures Cleaned("d/..", {}) == ""
  {
    var c := ["d", ".."];
    assert c[1..] == [".."] && [".."][1..] == [];
    assert Join([".."]) == ".." && Join(c) == "d/..";
    JoinSplits(c);
    assert [] + ["d"] == ["d"] && ["d"][..0] == [];
    var l := Links("", {});
    assert Removable("d", l);
    assert Cancel(["d"], [".."], l) == Cancel([], [], l) == [];
    assert Cancel([], c, l) == [];
    JoinNothing();
  }

  // ----- which pairs are taken out -----

  /** x/.. may go: x is neither . nor .., and the name that lstat is asked about is no symbolic link.  That name is x itself,
      or //x for an absolute path, wherever x stands. */
  predicate MayGo(absolute: bool, links: set<string>, x: string) {
    x != "." && x != ".." && (if absolute then "//" + x else x) !in links
  }

  /** e is what n such pairs, taken out one after the other, leave of c. */
  ghost predicate Reduces(absolute: bool, links: set<string>, c: seq<string>, e: seq<string>, n: nat) {
    if n == 0 then c == e
    else exists i :: 0 <= i < |c| - 1 && c[i + 1] == ".." && MayGo(absolute, links, c[i]) && Reduces(absolute, links, c[..i] + c[i + 2..], e, n - 1)
  }

  lemma {:induction false} CancelReduces(absolute: bool, links: set<string>, stack: seq<string>, rest: seq<string>) returns (n: nat)
    ensures Reduces(absolute, links, stack + rest, Cancel(stack, rest, Links(if absolute then "/" else "", links)), n)
    decreases |rest|
  {
    hide Cancel, Reduces, Removable;
    var l := Links(if absolute then "/" else "", links);
    CancelStep(stack, rest, l);
    if rest == [] {
      n := 0;
      NoPairLess(absolute, links, stack);
      assert stack + rest == stack;
    } else if rest[0] == ".." && stack != [] && Removable(stack[|stack| - 1], l) {
      var m := CancelReduces(absolute, links, stack[..|stack| - 1], rest[1..]);
      n := m + 1;
      OnePairMore(absolute, links, stack, rest, Cancel(stack, rest, l), m);
    } else {
      n := CancelReduces(absolute, links, stack + [rest[0]], rest[1..]);
      assert (stack + [rest[0]]) + rest[1..] == stack + rest;
    }
  }

  lemma {:induction false} CancelStep(stack: seq<string>, rest: seq<string>, l: Links)
    ensures Cancel(stack, rest, l) ==
            if rest == [] then stack
            else if rest[0] == ".." && stack != [] && Removable(stack[|stack| - 1], l) then Cancel(stack[..|stack| - 1], rest[1..], l)
            else Cancel(stack + [rest[0]], rest[1..], l)
  {
    hide Removable;
  }

  lemma {:induction false} NoPairLess(absolute: bool, links: set<string>, c: seq<string>)
    ensures Reduces(absolute, links, c, c, 0)
  {
  }

  lemma {:induction false} OnePairMore(absolute: bool, links: set<string>, stack: seq<string>, rest: seq<string>, e: seq<string>, m: nat)
    requires rest != [] && rest[0] == ".." && stack != [] && Removable(stack[|stack| - 1], Links(if absolute then "/" else "", links))
    requires Reduces(absolute, links, stack[..|stack| - 1] + rest[1..], e, m)
    ensures Reduces(absolute, links, stack + rest, e, m + 1)
  {
    hide MayGo, Removable;
    var c, i := stack + rest, |stack| - 1;
    NamesAsked(absolute, links, stack[i]);
    assert c[..i] + c[i + 2..] == stack[..i] + rest[1..];
    assert c[i + 1] == ".." && c[i] == stack[i];
  }

  lemma {:induction false} NamesAsked(absolute: bool, links: set<string>, x: string)
    ensures Removable(x, Links(if absolute then "/" else "", links)) <==> MayGo(absolute, links, x)
  {
    assert "/" + "/" + x == "//" + x && "" + "" + x == x;
  }

  lemma {:induction false} SlicesAre(path: string)
    requires path == "" || path[|path| - 1] != '/'
    ensures path != "" ==> Slices(path) == Components(path)
  {
  }

  /** The cleaned path has the leading slash of the path and what is left of its components when such pairs have been taken
      out one after the other, until none is left. */
  lemma {:induction false} CleanedIsReduced(path: string, links: set<string>) returns (c: seq<string>, n: nat)
    requires path != "" && path[|path| - 1] != '/'
    ensures Cleaned(path, links) == (if path[0] == '/' then "/" else "") + Join(c)
    ensures Reduces(path[0] == '/', links, Components(path), c, n)
    ensures forall i :: 0 < i < |c| && c[i] == ".." ==> !MayGo(path[0] == '/', links, c[i - 1])
  {
    var l := Links(Lead(path), links);
    SlicesAre(path);
    c := Cancel([], Components(path), l);
    n := CancelReduces(path[0] == '/', links, [], Components(path));
    assert [] + Components(path) == Components(path);
    CancelLeavesNone([], Components(path), l);
    forall i | 0 < i < |c| && c[i] == ".." ensures !MayGo(path[0] == '/', links, c[i - 1]) {
      NamesAsked(path[0] == '/', links, c[i - 1]);
    }
  }

  // ----- remove_dotdot -----

  lemma {:induction false} SlashesSkip(path: string, from: nat, stop: nat)
    requires from <= stop <= |path| && forall i :: from <= i < stop ==> path[i] == '/'
    ensures Components(path[from..]) == Components(path[stop..])
    decreases |path| - from
  {
    if from < stop {
      assert path[from..][1..] == path[from + 1..];
      SlashesSkip(path, from + 1, stop);
    }
  }

  method SkipSlashes(path: string, stop: nat) returns (end: nat)
    requires stop < |path| && path[stop] == '/'
    ensures stop < end <= |path| && (end < |path| ==> path[end] != '/') && path[end - 1] == '/'
    ensures Components(path[stop..]) == Components(path[end..])
  {
    hide Components;
    end := stop;
    while end < |path| && path[end] == '/'
      invariant stop <= end <= |path| && forall i :: stop <= i < end ==> path[i] == '/'
    {
      end := end + 1;
    }
    SlashesSkip(path, stop, end);
  }

  lemma {:induction false} SplitAt(path: string, from: nat, stop: nat)
    requires from < stop < |path| && path[stop] == '/' && '/' !in path[from..stop]
    ensures Components(path[from..]) == [path[from..stop]] + Components(path[stop..])
  {
    assert path[from..] == path[from..stop] + path[stop..];
    FirstComponent(path[from..stop], path[stop..]);
  }

  lemma {:induction false} LastComponent(path: string, from: nat, end: nat)
    requires from < |path| && end == |path| && '/' !in path[from..end]
    ensures Components(path[from..]) == [path[from..]]
  {
    assert path[from..] == path[from..] + "" && path[from..] == path[from..end];
    FirstComponent(path[from..], "");
  }

  lemma {:induction false} NoComponents()
    ensures Components("") == []
  {
  }

  /** The first loop of remove_dotdot.  A slash at the end makes it step over the end of the string. */
  method Slice(path: string, components: array<string>) returns (n: nat, ok: bool)
    requires components.Length > |path|
    modifies components
    ensures ok <==> !(path != "" && path[|path| - 1] == '/')
    ensures n <= components.Length && (ok ==> components[..n] == Slices(path))
  {
    hide Components, Name;
    n, ok := 0, true;
    var from, end := 0, 0;
    assert path[0..] == path && [] + Components(path) == Components(path);
    while end < |path|
      invariant 0 <= from <= end <= |path| && n <= from && '/' !in path[from..end]
      invariant from < |path| || path == ""
      invariant components[..n] + Components(path[from..]) == Components(path)
    {
      if path[end] == '/' {
        var stop := end;
        end := SkipSlashes(path, stop);
        if from < stop {
          SplitAt(path, from, stop);
          components[n] := path[from..stop];
          n := n + 1;
          assert components[..n] == components[..n - 1] + [path[from..stop]];
        }
        from := end;
        if end == |path| { return n, false; }
      }
      end := end + 1;
    }
    if path != "" { LastComponent(path, from, end); }
    NoComponents();
    components[n] := path[from..];
    n := n + 1;
    assert components[..n] == components[..n - 1] + [path[from..]];
  }

  /** Moves all the pointers down over the pair at cp. */
  method MoveDown(components: array<string>, cp: nat, n: nat)
    requires cp + 2 <= n <= components.Length
    modifies components
    ensures components[..n - 2] == old(components[..cp]) + old(components[cp + 2..n])
  {
    var tp := cp;
    while tp + 2 < n
      invariant cp <= tp <= n - 2
      invariant forall i :: 0 <= i < cp ==> components[i] == old(components[i])
      invariant forall i :: cp <= i < tp ==> components[i] == old(components[..])[i + 2]
      invariant forall i :: tp <= i < n ==> components[i] == old(components[i])
    {
      components[tp] := components[tp + 2];
      tp := tp + 1;
    }
  }

  lemma {:induction false} CancelPush(a: seq<string>, cp: nat, l: Links)
    requires cp < |a| && !(a[cp] == ".." && cp > 0 && Removable(a[cp - 1], l))
    ensures Cancel(a[..cp], a[cp..], l) == Cancel(a[..cp + 1], a[cp + 1..], l)
  {
    assert a[cp..][1..] == a[cp + 1..] && a[..cp] + [a[cp]] == a[..cp + 1];
  }

  lemma {:induction false} CancelPair(a: seq<string>, cp: nat, l: Links)
    requires cp + 1 < |a| && Removable(a[cp], l) && a[cp + 1] == ".."
    ensures Cancel(a[..cp], a[cp..], l) == Cancel(a[..cp], a[cp + 2..], l)
  {
    CancelPush(a, cp, l);
    assert a[cp + 1..][1..] == a[cp + 2..] && a[..cp + 1][..cp] == a[..cp];
  }

  /** The second loop of remove_dotdot, which steps back after each removal. */
  method CancelPairs(components: array<string>, n0: nat, l: Links) returns (n: nat)
    requires n0 <= components.Length
    modifies components
    ensures n <= components.Length && components[..n] == Cancel([], old(components[..n0]), l)
  {
    hide Cancel, Removable, Symbolic;
    n := n0;
    var cp := 0;
    ghost var a := components[..n];
    assert a[..0] == [] && a[0..] == a;
    while cp < n
      invariant 0 <= cp <= n <= components.Length && a == components[..n]
      invariant Cancel(a[..cp], a[cp..], l) == Cancel([], old(components[..n0]), l)
      invariant NonePast(a, cp, l)
      decreases n, n - cp
    {
      if components[cp] != "." && components[cp] != ".." && cp + 1 < n && components[cp + 1] == ".." && !Symbolic(l, components[cp]) {
        RemovePair(a, cp, l);
        MoveDown(components, cp, n);
        n := n - 2;
        a := a[..cp] + a[cp + 2..];
        if cp != 0 {
          cp := cp - 1;
        }
      } else {
        KeepOne(a, cp, l);
        cp := cp + 1;
      }
    }
    CancelDone(a, l);
  }

  /** No pair up to the name at cp could be cancelled. */
  predicate NonePast(a: seq<string>, cp: nat, l: Links) {
    forall i :: 0 < i < |a| && i <= cp && a[i] == ".." ==> !Removable(a[i - 1], l)
  }

  lemma {:induction false} RemovePair(a: seq<string>, cp: nat, l: Links)
    requires cp + 1 < |a| && a[cp] != "." && a[cp] != ".." && a[cp + 1] == ".." && !Symbolic(l, a[cp]) && NonePast(a, cp, l)
    ensures var b, back := a[..cp] + a[cp + 2..], if cp == 0 then 0 else cp - 1;
            NonePast(b, back, l) && Cancel(b[..back], b[back..], l) == Cancel(a[..cp], a[cp..], l)
  {
    CancelPair(a, cp, l);
    var b := a[..cp] + a[cp + 2..];
    assert b[..cp] == a[..cp] && b[cp..] == a[cp + 2..];
    hide Cancel;
    if cp != 0 {
      CancelPush(b, cp - 1, l);
    }
  }

  lemma {:induction false} KeepOne(a: seq<string>, cp: nat, l: Links)
    requires cp < |a| && NonePast(a, cp, l)
    requires a[cp] == "." || a[cp] == ".." || cp + 1 == |a| || a[cp + 1] != ".." || Symbolic(l, a[cp])
    ensures NonePast(a, cp + 1, l) && Cancel(a[..cp + 1], a[cp + 1..], l) == Cancel(a[..cp], a[cp..], l)
  {
    CancelPush(a, cp, l);
  }

  lemma {:induction false} CancelDone(a: seq<string>, l: Links)
    ensures Cancel(a[..|a|], a[|a|..], l) == a
  {
  }

  lemma {:induction false} JoinAppend(c: seq<string>, x: string)
    ensures Join(c + [x]) == if c == [] then x else Join(c) + "/" + x
  {
    if |c| == 1 {
      assert (c + [x])[1..] == [x];
    } else if c != [] {
      assert (c + [x])[1..] == c[1..] + [x];
      JoinAppend(c[1..], x);
    }
  }

  /** The last loop of remove_dotdot. */
  method Concatenate(components: array<string>, n: nat, lead: string) returns (newpath: string)
    requires n <= components.Length
    ensures newpath == lead + Join(components[..n])
  {
    hide Join;
    newpath := lead;
    var cp, copied := 0, false;
    JoinNothing();
    while cp < n
      invariant 0 <= cp <= n && copied == (cp > 0) && newpath == lead + Join(components[..cp])
    {
      JoinAppend(components[..cp], components[cp]);
      assert components[..cp + 1] == components[..cp] + [components[cp]];
      if copied { newpath := newpath + "/"; }
      copied := true;
      newpath := newpath + components[cp];
      cp := cp + 1;
    }
  }

  lemma {:induction false} JoinNothing()
    ensures Join([]) == ""
  {
  }

  /** remove_dotdot; no value when it steps over the end of the string. */
  method RemoveDotDot(path: string, links: set<string>) returns (r: Option<string>)
    ensures r == if path != "" && path[|path| - 1] == '/' then None else Some(Cleaned(path, links))
  {
    hide Cancel, Join, Slices;
    var components := new string[|path| + 1];
    var lead := if path != "" && path[0] == '/' then "/" else "";
    var n, ok := Slice(path, components);
    if !ok { return None; }
    n := CancelPairs(components, n, Links(lead, links));
    var newpath := Concatenate(components, n, lead);
    r := Some(newpath);
  }

  /** The shortest path with a slash at its end. */
  method TrailingSlash() returns (r: Option<string>)
    ensures r == None
  {
    r := RemoveDotDot("d/", {});
  }
}
