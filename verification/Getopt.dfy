/** rman's getopt.c: one option of the command line at a time. */
module Getopt {

  datatype Option<T> = None | Some(value: T)

  /** What one call returns: the end of the options, an option with its argument, or '?'. */
  datatype Answer = Eof | Opt(c: char, arg: Option<string>) | Bad(c: char)

  /** sp and optind. */
  datatype State = State(sp: int, optind: int)

  /** argv[i][k], with the terminator of the string. */
  function CharAt(s: string, k: int): char
    requires k >= 0
  {
    if k < |s| then s[k] else '\0'
  }

  predicate NoNul(argv: seq<string>) {
    forall i :: 0 <= i < |argv| ==> '\0' !in argv[i]
  }

  /** Between two calls sp is 1, or stands on a further letter of a word. */
  predicate Ok(argv: seq<string>, st: State) {
    NoNul(argv) && st.sp >= 1 && st.optind >= 0 && (st.sp > 1 ==> st.optind < |argv| && st.sp < |argv[st.optind]|)
  }

  /** The first place of c in opts is followed by a colon. */
  predicate TakesArgument(opts: string, c: char) {
    opts != "" && if opts[0] == c then CharAt(opts, 1) == ':' else TakesArgument(opts[1..], c)
  }

  predicate Known(opts: string, c: char) {
    c != ':' && c in opts
  }

  /** getopt as a function of the state. */
  function Step(argv: seq<string>, opts: string, st: State): (r: (State, Answer))
    requires Ok(argv, st)
    ensures Ok(argv, r.0)
    ensures r.1 != Eof ==> Left(argv, r.0).0 < Left(argv, st).0 || (r.0.optind == st.optind && Left(argv, r.0).1 < Left(argv, st).1)
  {
    var word := if st.optind < |argv| then argv[st.optind] else "";
    if st.sp == 1 && (st.optind >= |argv| || CharAt(word, 0) != '-' || CharAt(word, 1) == '\0') then (st, Eof)
    else if st.sp == 1 && word == "--" then (State(1, st.optind + 1), Eof)
    else
      var c := word[st.sp];
      var next := if CharAt(word, st.sp + 1) == '\0' then State(1, st.optind + 1) else State(st.sp + 1, st.optind);
      if !Known(opts, c) then (next, Bad(c))
      else if !TakesArgument(opts, c) then (next, Opt(c, None))
      else if CharAt(word, st.sp + 1) != '\0' then (State(1, st.optind + 1), Opt(c, Some(word[st.sp + 1..])))
      else if st.optind + 1 >= |argv| then (State(1, st.optind + 1), Bad(c))
      else (State(1, st.optind + 2), Opt(c, Some(argv[st.optind + 1])))
  }

  /** The words left, and the characters left of the current one. */
  function Left(argv: seq<string>, st: State): (int, int) {
    (if st.optind < |argv| then |argv| - st.optind else 0, if 0 <= st.optind < |argv| then |argv[st.optind]| - st.sp else 0)
  }

  /** All answers up to the end of the options, and the state then. */
  function All(argv: seq<string>, opts: string, st: State): (seq<Answer>, State)
    requires Ok(argv, st)
    decreases Left(argv, st).0, Left(argv, st).1
  {
    var (next, a) := Step(argv, opts, st);
    if a == Eof then ([], next)
    else
      assert Left(argv, next).0 < Left(argv, st).0 || (next.optind == st.optind && Left(argv, next).1 < Left(argv, st).1);
      var (rest, last) := All(argv, opts, next);
      ([a] + rest, last)
  }

  class Parser {
    const argv: seq<string>
    const opts: string
    var sp: int
    var optind: int
    var optopt: char
    var optarg: Option<string>

    constructor (argv: seq<string>, opts: string)
      requires NoNul(argv)
      ensures this.argv == argv && this.opts == opts && sp == 1 && optind == 1
    {
      this.argv, this.opts, sp, optind, optopt, optarg := argv, opts, 1, 1, '\0', None;
    }

    function Now(): State
      reads this
    {
      State(sp, optind)
    }

    /** strchr: the place of c, or the end. */
    method Find(c: char) returns (cp: nat)
      ensures cp <= |opts| && (cp == |opts| <==> c !in opts)
      ensures cp < |opts| ==> opts[cp] == c && (TakesArgument(opts, c) <==> CharAt(opts, cp + 1) == ':')
    {
      cp := 0;
      assert opts[0..] == opts;
      while cp < |opts| && opts[cp] != c
        invariant 0 <= cp <= |opts| && c !in opts[..cp] && (TakesArgument(opts, c) <==> TakesArgument(opts[cp..], c))
      {
        assert opts[cp..][1..] == opts[cp + 1..];
        cp := cp + 1;
      }
      if cp < |opts| { assert CharAt(opts[cp..], 1) == CharAt(opts, cp + 1); }
    }

    /** getopt: -1 is Eof, '?' is Bad. */
    method Next() returns (answer: Answer)
      requires Ok(argv, Now())
      modifies this
      ensures Ok(argv, Now()) && (Now(), answer) == Step(argv, opts, old(Now()))
      ensures answer.Opt? ==> optopt == answer.c && optarg == answer.arg
    {
      if sp == 1 {
        if optind >= |argv| || CharAt(argv[optind], 0) != '-' || CharAt(argv[optind], 1) == '\0' {
          return Eof;
        } else if argv[optind] == "--" {
          optind := optind + 1;
          return Eof;
        }
      }
      var c := argv[optind][sp];
      optopt := c;
      var cp := Find(c);
      if c == ':' || cp == |opts| {
        sp := sp + 1;
        if CharAt(argv[optind], sp) == '\0' {
          optind := optind + 1;
          sp := 1;
        }
        return Bad(c);
      }
      if CharAt(opts, cp + 1) == ':' {
        if CharAt(argv[optind], sp + 1) != '\0' {
          optarg := Some(argv[optind][sp + 1..]);
          optind := optind + 1;
        } else {
          optind := optind + 1;
          if optind >= |argv| {
            sp := 1;
            return Bad(c);
          }
          optarg := Some(argv[optind]);
          optind := optind + 1;
        }
        sp := 1;
      } else {
        sp := sp + 1;
        if CharAt(argv[optind], sp) == '\0' {
          sp := 1;
          optind := optind + 1;
        }
        optarg := None;
      }
      answer := Opt(c, optarg);
    }
  }

  /** Calling getopt until EOF. */
  method Options(argv: seq<string>, opts: string) returns (answers: seq<Answer>, optind: int)
    requires NoNul(argv)
    ensures var (all, last) := All(argv, opts, State(1, 1));
            answers == all && optind == last.optind
  {
    var p := new Parser(argv, opts);
    answers := [];
    ghost var st := p.Now();
    assert [] + All(argv, opts, st).0 == All(argv, opts, st).0;
    var a := p.Next();
    while a != Eof
      invariant fresh(p) && p.argv == argv && p.opts == opts && Ok(argv, st) && Ok(argv, p.Now()) && (p.Now(), a) == Step(argv, opts, st)
      invariant var (rest, last) := All(argv, opts, st);
                All(argv, opts, State(1, 1)) == (answers + rest, last)
      decreases Left(argv, st).0, Left(argv, st).1
    {
      assert answers + ([a] + All(argv, opts, p.Now()).0) == (answers + [a]) + All(argv, opts, p.Now()).0;
      answers := answers + [a];
      st := p.Now();
      a := p.Next();
    }
    assert answers + [] == answers;
    optind := p.optind;
  }

  // ----- command lines as they are written -----

  /** A word of options: letters without argument and perhaps, at the end, one with an argument, in the same word or in
      the next one. */
  datatype Word = Word(flags: string, last: Option<Argument>)
  datatype Argument = Argument(c: char, value: string, attached: bool)

  /** What the syntax guidelines ask of a word: known letters, used as the option string says.  A dash may be one of
      them, but "--" ends the options. */
  predicate ValidWord(w: Word, opts: string) {
    && (w.flags != "" || w.last.Some?) && Written(w)[0] != "--"
    && (forall i :: 0 <= i < |w.flags| ==> Known(opts, w.flags[i]) && !TakesArgument(opts, w.flags[i]) && w.flags[i] != '\0')
    && (w.last.Some? ==>
          var a := w.last.value;
          Known(opts, a.c) && TakesArgument(opts, a.c) && a.c != '\0' && '\0' !in a.value && (a.attached ==> a.value != ""))
  }

  function Written(w: Word): (words: seq<string>)
    ensures 1 <= |words| <= 2 && (|words| == 2 <==> w.last.Some? && !w.last.value.attached)
  {
    if w.last.None? then ["-" + w.flags]
    else
      var a := w.last.value;
      if a.attached then ["-" + w.flags + [a.c] + a.value] else ["-" + w.flags + [a.c], a.value]
  }

  function WrittenAll(ws: seq<Word>): seq<string> {
    if ws == [] then [] else Written(ws[0]) + WrittenAll(ws[1..])
  }

  /** The options of a word from the j-th letter on. */
  function Meant(w: Word, j: nat): seq<Answer>
    requires j <= |w.flags|
    decreases |w.flags| - j
  {
    if j < |w.flags| then [Opt(w.flags[j], None)] + Meant(w, j + 1)
    else if w.last.Some? then [Opt(w.last.value.c, Some(w.last.value.value))]
    else []
  }

  function MeantAll(ws: seq<Word>): seq<Answer> {
    if ws == [] then [] else Meant(ws[0], 0) + MeantAll(ws[1..])
  }

  /** What may stand behind the options: operands after "--", or operands of which the first does not look like an option. */
  predicate Operands(tail: seq<string>) {
    tail == [] || tail[0] == "--" || CharAt(tail[0], 0) != '-' || tail[0] == "-"
  }

  lemma {:induction false} AllOne(argv: seq<string>, opts: string, st: State)
    requires Ok(argv, st)
    ensures var (next, a) := Step(argv, opts, st);
            All(argv, opts, st) == if a == Eof then ([], next) else ([a] + All(argv, opts, next).0, All(argv, opts, next).1)
  {
  }

  /** A letter without argument. */
  lemma {:induction false} FlagStep(argv: seq<string>, opts: string, w: Word, k: nat, j: nat)
    requires NoNul(argv) && ValidWord(w, opts) && k + |Written(w)| <= |argv| && argv[k..k + |Written(w)|] == Written(w)
    requires j < |w.flags|
    ensures Ok(argv, State(1 + j, k))
    ensures Step(argv, opts, State(1 + j, k)) ==
              (if j + 1 < |w.flags| || w.last.Some? then State(2 + j, k) else State(1, k + |Written(w)|), Opt(w.flags[j], None))
  {
    hide TakesArgument, Known;
    var word := argv[k];
    assert word == argv[k..k + |Written(w)|][0] == Written(w)[0];
    FirstLetter(w, opts, word);
    assert word[1 + j] == w.flags[j];
    if j + 1 < |w.flags| {
      assert word[2 + j] == w.flags[j + 1];
    } else if w.last.Some? {
      assert word[2 + j] == w.last.value.c;
    } else {
      assert |word| == 2 + j;
    }
  }

  /** One letter of a word. */
  lemma {:induction false} LetterStep(argv: seq<string>, opts: string, w: Word, k: nat, j: nat)
    requires NoNul(argv) && ValidWord(w, opts) && k + |Written(w)| <= |argv| && argv[k..k + |Written(w)|] == Written(w)
    requires j <= |w.flags| && (j < |w.flags| || w.last.Some?)
    ensures Ok(argv, State(1 + j, k))
    ensures Step(argv, opts, State(1 + j, k)) ==
              if j == |w.flags| then (State(1, k + |Written(w)|), Opt(w.last.value.c, Some(w.last.value.value)))
              else (if j + 1 < |w.flags| || w.last.Some? then State(2 + j, k) else State(1, k + |Written(w)|), Opt(w.flags[j], None))
  {
    hide TakesArgument, Known;
    if j < |w.flags| {
      FlagStep(argv, opts, w, k, j);
    } else {
      var word := argv[k];
      assert word == argv[k..k + |Written(w)|][0] == Written(w)[0];
      FirstLetter(w, opts, word);
      var a := w.last.value;
      assert word[1 + j] == a.c;
      if a.attached {
        assert word[2 + j..] == a.value && CharAt(word, 2 + j) == a.value[0];
      } else {
        assert |word| == 2 + j;
        assert argv[k + 1] == argv[k..k + 2][1] == a.value;
      }
    }
  }

  /** A word is read letter by letter. */
  lemma {:induction false} WordParses(argv: seq<string>, opts: string, w: Word, k: nat, j: nat)
    requires NoNul(argv) && ValidWord(w, opts) && k + |Written(w)| <= |argv| && argv[k..k + |Written(w)|] == Written(w)
    requires j <= |w.flags| && (j < |w.flags| || w.last.Some?)
    ensures Ok(argv, State(1 + j, k))
    ensures var (rest, end) := All(argv, opts, State(1, k + |Written(w)|));
            All(argv, opts, State(1 + j, k)) == (Meant(w, j) + rest, end)
    decreases |w.flags| - j
  {
    hide Step, All, ValidWord, Written;
    LetterStep(argv, opts, w, k, j);
    AllOne(argv, opts, State(1 + j, k));
    var rest := All(argv, opts, State(1, k + |Written(w)|)).0;
    if j < |w.flags| && (j + 1 < |w.flags| || w.last.Some?) {
      WordParses(argv, opts, w, k, j + 1);
      assert [Opt(w.flags[j], None)] + (Meant(w, j + 1) + rest) == Meant(w, j) + rest;
    } else if j < |w.flags| {
      assert Meant(w, j + 1) == [];
      assert Meant(w, j) == [Opt(w.flags[j], None)];
    }
  }

  /** A word of options looks like one, and is not "--". */
  lemma {:induction false} FirstLetter(w: Word, opts: string, word: string)
    requires ValidWord(w, opts) && word == Written(w)[0]
    ensures |word| >= 2 && word[0] == '-' && word != "--" && CharAt(word, 1) != '\0'
    ensures forall i :: 0 <= i < |w.flags| ==> word[1 + i] == w.flags[i]
  {
    assert word[1] == if w.flags != "" then w.flags[0] else w.last.value.c;
  }

  /** Every command line written from a list of words is read as that list, and optind is left at the first operand. */
  lemma {:induction false} LineParses(argv: seq<string>, opts: string, ws: seq<Word>, tail: seq<string>, k: nat)
    requires NoNul(argv) && k <= |argv| && argv[k..] == WrittenAll(ws) + tail && Operands(tail)
    requires forall i :: 0 <= i < |ws| ==> ValidWord(ws[i], opts)
    ensures All(argv, opts, State(1, k)) ==
            (MeantAll(ws), State(1, |argv| - |tail| + if tail != [] && tail[0] == "--" then 1 else 0))
    decreases |ws|
  {
    hide Step, All, ValidWord, Written, Meant, Operands;
    if ws == [] {
      assert argv[k..] == tail;
      TailEnds(argv, opts, tail, k);
    } else {
      var w, rest := Written(ws[0]), WrittenAll(ws[1..]) + tail;
      assert argv[k..] == w + rest;
      Slices(argv, k, w, rest);
      FirstWord(ws[0], opts);
      WordParses(argv, opts, ws[0], k, 0);
      LineParses(argv, opts, ws[1..], tail, k + |w|);
    }
  }

  lemma {:induction false} Slices(argv: seq<string>, k: nat, w: seq<string>, rest: seq<string>)
    requires k <= |argv| && argv[k..] == w + rest
    ensures k + |w| <= |argv| && argv[k..k + |w|] == w && argv[k + |w|..] == rest
  {
    assert |argv[k..]| == |w| + |rest|;
    assert argv[k..k + |w|] == argv[k..][..|w|];
    assert argv[k + |w|..] == argv[k..][|w|..];
  }

  lemma {:induction false} FirstWord(w: Word, opts: string)
    requires ValidWord(w, opts)
    ensures w.flags != "" || w.last.Some?
  {
  }

  lemma {:induction false} TailEnds(argv: seq<string>, opts: string, tail: seq<string>, k: nat)
    requires NoNul(argv) && k <= |argv| && argv[k..] == tail && Operands(tail)
    ensures All(argv, opts, State(1, k)) == ([], State(1, k + if tail != [] && tail[0] == "--" then 1 else 0))
  {
    if tail != [] { assert argv[k] == argv[k..][0]; }
  }
}
