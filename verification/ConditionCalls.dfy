/** What one whole call of the condition variables of Xthreads.h does, from the call to the return, while the other
    threads run as they like in between. */
module ConditionCalls {
  import opened ConditionVariable

  type Run = seq<(nat, Action)>

  /** The run ends when thread x is outside again for the first time. */
  predicate Returns(s: State, run: Run, policy: Policy, x: nat)
    requires Shape(s) && |policy| == |s.pc| && x < |s.pc|
    decreases run
  {
    run != [] && Step(s, run[0].0, run[0].1, policy).Now? &&
    var s1 := Step(s, run[0].0, run[0].1, policy).s;
    if s1.pc[x].Running? then run[1..] == [] else Returns(s1, run[1..], policy, x)
  }

  /** All steps of such a run can be taken, and at its end x is outside. */
  lemma {:induction false} ReturnsExecutes(s: State, run: Run, policy: Policy, x: nat)
    requires Shape(s) && |policy| == |s.pc| && x < |s.pc| && Returns(s, run, policy, x)
    ensures Execute(s, run, policy).Now? && Execute(s, run, policy).s.pc[x] == Running
    decreases run
  {
    hide Step;
    var s1 := Step(s, run[0].0, run[0].1, policy).s;
    if s1.pc[x].Running? {
      assert Execute(s1, [], policy) == Now(s1);
    } else {
      ReturnsExecutes(s1, run[1..], policy, x);
    }
  }

  /** The states before and after each step of x. */
  function Own(s: State, run: Run, policy: Policy, x: nat): seq<(State, State)>
    requires Shape(s) && |policy| == |s.pc|
    decreases run
  {
    if run == [] || Step(s, run[0].0, run[0].1, policy).Blocked? then []
    else
      var s1 := Step(s, run[0].0, run[0].1, policy).s;
      (if run[0].0 == x then [(s, s1)] else []) + Own(s1, run[1..], policy, x)
  }

  /** What these steps add to the semaphore of y. */
  function Given(own: seq<(State, State)>, y: nat): int {
    if own == [] then 0 else Count(own[0].1.sem, y) - Count(own[0].0.sem, y) + Given(own[1..], y)
  }

  function Count(sem: seq<nat>, y: nat): int {
    if y < |sem| then sem[y] else 0
  }

  /** What they add to all semaphores. */
  function Raised(own: seq<(State, State)>): int {
    if own == [] then 0 else Sum(own[0].1.sem) - Sum(own[0].0.sem) + Raised(own[1..])
  }

  function Sum(sem: seq<nat>): nat {
    if sem == [] then 0 else sem[0] + Sum(sem[1..])
  }

  lemma {:induction false} SumUpdate(sem: seq<nat>, y: nat, n: nat)
    requires y < |sem|
    ensures Sum(sem[y := n]) == Sum(sem) - sem[y] + n
  {
    if y == 0 {
      assert sem[y := n][1..] == sem[1..];
    } else {
      assert sem[y := n][1..] == sem[1..][y - 1 := n];
      SumUpdate(sem[1..], y - 1, n);
    }
  }

  /** The first state of the run in which x is inside the critical section of c. */
  function Entered(s: State, run: Run, policy: Policy, x: nat, c: nat): State
    requires Shape(s) && |policy| == |s.pc|
    decreases run
  {
    if (c < |s.cs| && s.cs[c] == To(x)) || run == [] || Step(s, run[0].0, run[0].1, policy).Blocked? then s
    else Entered(Step(s, run[0].0, run[0].1, policy).s, run[1..], policy, x, c)
  }

  lemma {:induction false} OwnStep(s: State, run: Run, policy: Policy, x: nat, y: nat)
    requires Shape(s) && |policy| == |s.pc| && run != [] && Step(s, run[0].0, run[0].1, policy).Now?
    ensures var s1 := Step(s, run[0].0, run[0].1, policy).s;
            var own, rest := Own(s, run, policy, x), Own(s1, run[1..], policy, x);
            if run[0].0 == x then
              && own == [(s, s1)] + rest
              && Given(own, y) == Count(s1.sem, y) - Count(s.sem, y) + Given(rest, y) && Raised(own) == Sum(s1.sem) - Sum(s.sem) + Raised(rest)
            else own == rest
  {
    hide Step;
    var s1 := Step(s, run[0].0, run[0].1, policy).s;
    assert ([(s, s1)] + Own(s1, run[1..], policy, x))[1..] == Own(s1, run[1..], policy, x);
  }

  lemma {:induction false} ReturnsStep(s: State, q: seq<seq<nat>>, run: Run, policy: Policy, x: nat)
    requires Inv(s, q, policy) && x < |s.pc| && Returns(s, run, policy, x)
    ensures run != [] && Shape(s) && |policy| == |s.pc| && |q| == |s.waiters| && run[0].0 < |s.pc| && Step(s, run[0].0, run[0].1, policy).Now?
    ensures var s1 := Step(s, run[0].0, run[0].1, policy).s;
            |s1.pc| == |s.pc| && if s1.pc[x].Running? then run[1..] == [] else Returns(s1, run[1..], policy, x)
  {
    hide Start, ContinueWait, ContinueSignal, ContinueBroadcast;
  }

  // ----- what the others do meanwhile -----

  /** While x is inside the critical section of c, the others neither hang from c nor are taken off it. */
  lemma {:induction false} OthersLeave(s: State, q: seq<seq<nat>>, policy: Policy, x: nat, t: nat, a: Action)
    requires Inv(s, q, policy) && x < |s.pc| && t != x && Inside(s.pc[x]) && Step(s, t, a, policy).Now?
    ensures Step(s, t, a, policy).s.pc[x] == s.pc[x] && s.pc[x].c < |q| && s.pc[x].c < |After(s, q, t)|
    ensures After(s, q, t)[s.pc[x].c] == q[s.pc[x].c]
  {
    OthersGoOn(s, policy, x, t, a);
    hide Step;
    if Inside(s.pc[t]) { assert s.cs[s.pc[t].c] == To(t) && s.cs[s.pc[x].c] == To(x); }
  }

  lemma {:induction false} OthersGoOn(s: State, policy: Policy, x: nat, t: nat, a: Action)
    requires Shape(s) && |policy| == |s.pc| && x < |s.pc| && t != x && Step(s, t, a, policy).Now?
    ensures t < |s.pc| && Step(s, t, a, policy).s.pc[x] == s.pc[x]
  {
  }

  // ----- a signal -----

  /** The thread at the front gets the token, if there is one. */
  predicate Pays(p: Pc, list: seq<nat>) {
    p.At? && (p.l == SigTest || p.l == SigRelease) && list != []
  }

  lemma {:induction false} SignalTail(s: State, q: seq<seq<nat>>, run: Run, policy: Policy, x: nat, y: nat)
    requires Inv(s, q, policy) && Exclusive(policy) && x < |s.pc| && Signalling(s.pc[x]) && Inside(s.pc[x]) && s.pc[x].c < |q|
    requires Shape(s) && |policy| == |s.pc| && Returns(s, run, policy, x)
    ensures var list, own := q[s.pc[x].c], Own(s, run, policy, x);
            && Given(own, y) == (if Pays(s.pc[x], list) && y == list[0] then 1 else 0)
            && Raised(own) == if Pays(s.pc[x], list) then 1 else 0
    decreases run
  {
    hide Step, Inv, Own, After, Shape, Exclusive, Given, Raised, Sum, Count, Returns, WaitDoes, Reachable, Hanging;
    ReturnsStep(s, q, run, policy, x);
    var (t, a) := run[0];
    var s1, q1 := Step(s, t, a, policy).s, After(s, q, t);
    StepKeeps(s, q, policy, t, a);
    OwnStep(s, run, policy, x, y);
    if t != x {
      OthersLeave(s, q, policy, x, t, a);
      SignalTail(s1, q1, run[1..], policy, x, y);
    } else {
      SignalStep(s, q, policy, x, a, y);
      if s1.pc[x].Running? {
        NothingOwn(s1, policy, x, y);
      } else {
        SignalTail(s1, q1, run[1..], policy, x, y);
      }
    }
  }

  lemma {:induction false} SignalStep(s: State, q: seq<seq<nat>>, policy: Policy, x: nat, a: Action, y: nat)
    requires Inv(s, q, policy) && x < |s.pc| && Signalling(s.pc[x]) && Inside(s.pc[x]) && s.pc[x].c < |q| && Step(s, x, a, policy).Now?
    ensures |After(s, q, x)| == |q|
    ensures var s1, p, list, rest := Step(s, x, a, policy).s, s.pc[x], q[s.pc[x].c], After(s, q, x)[s.pc[x].c];
            && (s1.pc[x].Running? || (Signalling(s1.pc[x]) && Inside(s1.pc[x]) && s1.pc[x].c == p.c))
            && Count(s1.sem, y) == Count(s.sem, y) + (if Pays(p, list) && !Pays(s1.pc[x], rest) && y == list[0] then 1 else 0)
            && Sum(s1.sem) == Sum(s.sem) + (if Pays(p, list) && !Pays(s1.pc[x], rest) then 1 else 0)
            && (Pays(s1.pc[x], rest) ==> Pays(p, list) && rest == list)
  {
    if s.pc[x].l == SigRelease { SignalGives(s, q, policy, x, a, y); } else { SignalKeepsOwed(s, q, policy, x, a, y); }
  }

  lemma {:induction false} SignalGives(s: State, q: seq<seq<nat>>, policy: Policy, x: nat, a: Action, y: nat)
    requires Inv(s, q, policy) && x < |s.pc| && Signalling(s.pc[x]) && s.pc[x].l == SigRelease && s.pc[x].c < |q| && Step(s, x, a, policy).Now?
    ensures var s1, p, list := Step(s, x, a, policy).s, s.pc[x], q[s.pc[x].c];
            && s1.pc[x] == p.(l := SigPop) && list != []
            && Count(s1.sem, y) == Count(s.sem, y) + (if y == list[0] then 1 else 0) && Sum(s1.sem) == Sum(s.sem) + 1
  {
    hide Step, Balanced, ListIs, Lists, Owners, Permitted, HoldsMutex, Sum, Count;
    var p := s.pc[x];
    assert PointersFit(p, x, s.next, s.waiters, policy);
    var head := s.waiters[p.c].t;
    WakesFirst(s, q, policy, x, head);
    ReleaseStep(s, x, a, policy, head);
    OneMore(s.sem, head, y);
  }

  /** Releasing a semaphore. */
  lemma {:induction false} ReleaseStep(s: State, x: nat, a: Action, policy: Policy, y: nat)
    requires Shape(s) && |policy| == |s.pc| && x < |s.pc| && Waking(s.pc[x], s.waiters, y) && Step(s, x, a, policy).Now?
    ensures y < |s.sem| && |s.sem| == |s.pc|
    ensures Step(s, x, a, policy).s == s.(pc := s.pc[x := Woken(s.pc[x])], sem := s.sem[y := s.sem[y] + 1])
  {
    hide ContinueWait, Start;
  }

  lemma {:induction false} OneMore(sem: seq<nat>, z: nat, y: nat)
    requires z < |sem|
    ensures Count(sem[z := sem[z] + 1], y) == Count(sem, y) + (if y == z then 1 else 0) && Sum(sem[z := sem[z] + 1]) == Sum(sem) + 1
  {
    SumUpdate(sem, z, sem[z] + 1);
  }

  lemma {:induction false} SignalKeepsOwed(s: State, q: seq<seq<nat>>, policy: Policy, x: nat, a: Action, y: nat)
    requires Inv(s, q, policy) && x < |s.pc| && Signalling(s.pc[x]) && Inside(s.pc[x]) && s.pc[x].l != SigRelease && s.pc[x].c < |q|
    requires Step(s, x, a, policy).Now?
    ensures var s1, p, list := Step(s, x, a, policy).s, s.pc[x], q[s.pc[x].c];
            && (s1.pc[x].Running? || (Signalling(s1.pc[x]) && Inside(s1.pc[x]) && s1.pc[x].c == p.c)) && s1.sem == s.sem
            && After(s, q, x) == q && (Pays(s1.pc[x], list) <==> Pays(p, list))
  {
    var c := s.pc[x].c;
    assert s.cs[c] == To(x);
    if s.pc[x].l == SigTest { assert Root(s, c) == s.waiters[c]; }
  }

  lemma {:induction false} SignalEnters(s: State, q: seq<seq<nat>>, run: Run, policy: Policy, x: nat, c: nat, y: nat) returns (q': seq<seq<nat>>)
    requires Inv(s, q, policy) && Exclusive(policy) && x < |s.pc| && s.pc[x].At? && s.pc[x].l == SigEnter && s.pc[x].c == c
    requires Shape(s) && |policy| == |s.pc| && Returns(s, run, policy, x)
    ensures var e, own := Entered(s, run, policy, x, c), Own(s, run, policy, x);
            && Inv(e, q', policy) && c < |q'| && x < |e.pc| && e.pc[x].At? && e.pc[x].l == SigTest && e.pc[x].c == c
            && Given(own, y) == (if q'[c] != [] && y == q'[c][0] then 1 else 0) && Raised(own) == if q'[c] != [] then 1 else 0
    decreases run
  {
    hide Step, Inv, Own, After, Shape, Exclusive, Given, Raised, Sum, Count, Returns, WaitDoes, Reachable, Hanging;
    ReturnsStep(s, q, run, policy, x);
    var (t, a) := run[0];
    var s1, q1 := Step(s, t, a, policy).s, After(s, q, t);
    NotYetInside(s, q, policy, x, c);
    if t == x { SignalGoesIn(s, q, policy, x, a); } else { OthersGoOn(s, policy, x, t, a); }
    StepKeeps(s, q, policy, t, a);
    OwnStep(s, run, policy, x, y);
    if t != x {
      q' := SignalEnters(s1, q1, run[1..], policy, x, c, y);
    } else {
      q' := q1;
      SignalTail(s1, q1, run[1..], policy, x, y);
    }
  }

  lemma {:induction false} NothingOwn(s: State, policy: Policy, x: nat, y: nat)
    requires Shape(s) && |policy| == |s.pc|
    ensures Own(s, [], policy, x) == [] && Given([], y) == Raised([]) == 0
  {
  }

  lemma {:induction false} NotYetInside(s: State, q: seq<seq<nat>>, policy: Policy, x: nat, c: nat)
    requires Inv(s, q, policy) && x < |s.pc| && s.pc[x].At? && (s.pc[x].l == SigEnter || s.pc[x].l == BcEnter)
    ensures !(c < |s.cs| && s.cs[c] == To(x)) && |policy| == |s.pc| && Shape(s)
  {
    NotInside(s, q, policy, x, c);
  }

  lemma {:induction false} NotInside(s: State, q: seq<seq<nat>>, policy: Policy, x: nat, c: nat)
    requires Inv(s, q, policy) && x < |s.pc| && !Inside(s.pc[x])
    ensures !(c < |s.cs| && s.cs[c] == To(x))
  {
  }

  lemma {:induction false} SignalGoesIn(s: State, q: seq<seq<nat>>, policy: Policy, x: nat, a: Action)
    requires Inv(s, q, policy) && x < |s.pc| && s.pc[x].At? && s.pc[x].l == SigEnter && Step(s, x, a, policy).Now?
    ensures var s1 := Step(s, x, a, policy).s;
            && s1.pc[x] == s.pc[x].(l := SigTest) && s1.sem == s.sem && s.pc[x].c < |s1.cs| && s1.cs[s.pc[x].c] == To(x)
            && s.pc[x].c < |After(s, q, x)|
  {
  }

  lemma {:induction false} SignalStarts(s: State, policy: Policy, x: nat, c: nat)
    requires Shape(s) && |policy| == |s.pc| && x < |s.pc| && s.pc[x] == Running && Step(s, x, Signal(c), policy).Now?
    ensures c < |s.cs| && Step(s, x, Signal(c), policy).s == s.(pc := s.pc[x := At(SigEnter, c, 0, Null)])
  {
  }

  /** The threads hanging from c are those on its list. */
  lemma {:induction false} HangingIsListed(s: State, q: seq<seq<nat>>, policy: Policy, c: nat)
    requires Inv(s, q, policy) && c < |q|
    ensures forall t :: Hanging(s, t, c) <==> t in q[c]
  {
    forall t | t in q[c] ensures t < |s.pc| {
      ListedThread(s.next, Root(s, c), q[c], t);
    }
  }

  lemma {:induction false} ListedThread(next: seq<Link>, p: Link, list: seq<nat>, t: nat)
    requires ListIs(next, p, list) && t in list
    ensures t < |next|
    decreases list
  {
    if t != list[0] { ListedThread(next, next[list[0]], list[1..], t); }
  }

  /** A signal, from its call to its return: it raises the semaphore of exactly one thread that hangs from c when it enters
      the critical section, the one at the head of the list, and no semaphore at all when nobody hangs there. */
  lemma {:induction false} SignalReleasesOne(s: State, nc: nat, nm: nat, policy: Policy, run: Run, x: nat, c: nat, y: nat)
    requires Exclusive(policy) && Reachable(s, nc, nm, policy) && Shape(s) && |policy| == |s.pc| && x < |s.pc| && s.pc[x] == Running
    requires Returns(s, run, policy, x) && run[0] == (x, Signal(c))
    ensures var e, own := Entered(s, run, policy, x, c), Own(s, run, policy, x);
            && c < |e.waiters|
            && Given(own, y) == (if e.waiters[c] == To(y) then 1 else 0)
            && (e.waiters[c] == To(y) ==> Hanging(e, y, c))
            && Raised(own) == if exists t :: Hanging(e, t, c) then 1 else 0
  {
    hide Step, Inv, Own, After, Shape, Exclusive, Given, Raised, Sum, Reachable, Hanging;
    var q := ReachableInv(s, nc, nm, policy);
    NotInside(s, q, policy, x, c);
    SignalStarts(s, policy, x, c);
    StepKeeps(s, q, policy, x, Signal(c));
    OwnStep(s, run, policy, x, y);
    var s1 := Step(s, x, Signal(c), policy).s;
    var e := Entered(s, run, policy, x, c);
    var q' := SignalEnters(s1, After(s, q, x), run[1..], policy, x, c, y);
    AtTest(e, q', policy, x, c);
    HangingIsListed(e, q', policy, c);
    if q'[c] != [] { assert q'[c][0] in q'[c]; }
  }

  lemma {:induction false} AtTest(s: State, q: seq<seq<nat>>, policy: Policy, x: nat, c: nat)
    requires Inv(s, q, policy) && x < |s.pc| && s.pc[x].At? && s.pc[x].l == SigTest && s.pc[x].c == c && c < |q|
    ensures c < |s.waiters| && s.waiters[c] == if q[c] == [] then Null else To(q[c][0])
  {
    assert Inside(s.pc[x]) && s.cs[c] == To(x);
    assert Root(s, c) == s.waiters[c];
  }

  // ----- a broadcast -----

  /** The threads still to get their token. */
  function Owed(p: Pc, list: seq<nat>): seq<nat> {
    if p.At? && (p.l == BcStart || p.l == BcTest || p.l == BcRelease || p.l == BcNext) then list else []
  }

  lemma {:induction false} BroadcastTail(s: State, q: seq<seq<nat>>, run: Run, policy: Policy, x: nat, y: nat)
    requires Inv(s, q, policy) && Exclusive(policy) && x < |s.pc| && Broadcasting(s.pc[x]) && Inside(s.pc[x]) && s.pc[x].c < |q|
    requires Shape(s) && |policy| == |s.pc| && Returns(s, run, policy, x)
    ensures var owed, own := Owed(s.pc[x], q[s.pc[x].c]), Own(s, run, policy, x);
            && Given(own, y) == (if y in owed then 1 else 0)
            && Raised(own) == |owed|
    decreases run
  {
    hide Step, Inv, Own, After, Shape, Exclusive, Given, Raised, Sum, Count, Returns, WaitDoes, Reachable, Hanging;
    ReturnsStep(s, q, run, policy, x);
    var (t, a) := run[0];
    var s1, q1 := Step(s, t, a, policy).s, After(s, q, t);
    StepKeeps(s, q, policy, t, a);
    OwnStep(s, run, policy, x, y);
    if t != x {
      OthersLeave(s, q, policy, x, t, a);
      BroadcastTail(s1, q1, run[1..], policy, x, y);
    } else {
      BroadcastStep(s, q, policy, x, a, y);
      if s1.pc[x].Running? {
        NothingOwn(s1, policy, x, y);
      } else {
        BroadcastTail(s1, q1, run[1..], policy, x, y);
      }
    }
  }

  lemma {:induction false} BroadcastStep(s: State, q: seq<seq<nat>>, policy: Policy, x: nat, a: Action, y: nat)
    requires Inv(s, q, policy) && x < |s.pc| && Broadcasting(s.pc[x]) && Inside(s.pc[x]) && s.pc[x].c < |q| && Step(s, x, a, policy).Now?
    ensures |After(s, q, x)| == |q|
    ensures var s1, p := Step(s, x, a, policy).s, s.pc[x];
            var owed, rest := Owed(p, q[p.c]), Owed(s1.pc[x], After(s, q, x)[p.c]);
            && (s1.pc[x].Running? || (Broadcasting(s1.pc[x]) && Inside(s1.pc[x]) && s1.pc[x].c == p.c))
            && Count(s1.sem, y) == Count(s.sem, y) + (if y in owed then 1 else 0) - (if y in rest then 1 else 0)
            && Sum(s1.sem) == Sum(s.sem) + |owed| - |rest|
  {
    if s.pc[x].l == BcRelease {
      BroadcastGives(s, q, policy, x, a, y);
      DistinctList(s, q, s.pc[x].c);
      FirstOnce(q[s.pc[x].c], y);
    } else {
      BroadcastKeepsOwed(s, q, policy, x, a, y);
    }
  }

  lemma {:induction false} BroadcastGives(s: State, q: seq<seq<nat>>, policy: Policy, x: nat, a: Action, y: nat)
    requires Inv(s, q, policy) && x < |s.pc| && Broadcasting(s.pc[x]) && s.pc[x].l == BcRelease && s.pc[x].c < |q| && Step(s, x, a, policy).Now?
    ensures var s1, p, list := Step(s, x, a, policy).s, s.pc[x], q[s.pc[x].c];
            && s1.pc[x] == p.(l := BcNext) && list != [] && After(s, q, x)[p.c] == list[1..]
            && Count(s1.sem, y) == Count(s.sem, y) + (if y == list[0] then 1 else 0) && Sum(s1.sem) == Sum(s.sem) + 1
  {
    hide Step, Balanced, ListIs, Lists, Owners, Permitted, HoldsMutex, Sum, Count;
    var p := s.pc[x];
    assert PointersFit(p, x, s.next, s.waiters, policy);
    WakesFirst(s, q, policy, x, p.cur.t);
    ReleaseStep(s, x, a, policy, p.cur.t);
    OneMore(s.sem, p.cur.t, y);
  }

  lemma {:induction false} BroadcastKeepsOwed(s: State, q: seq<seq<nat>>, policy: Policy, x: nat, a: Action, y: nat)
    requires Shape(s) && |policy| == |s.pc| && Inv(s, q, policy)
    requires x < |s.pc| && Broadcasting(s.pc[x]) && Inside(s.pc[x]) && s.pc[x].l != BcRelease && s.pc[x].c < |q|
    requires Step(s, x, a, policy).Now?
    ensures var s1, p := Step(s, x, a, policy).s, s.pc[x];
            && (s1.pc[x].Running? || (Broadcasting(s1.pc[x]) && Inside(s1.pc[x]) && s1.pc[x].c == p.c)) && s1.sem == s.sem
            && After(s, q, x) == q && Owed(s1.pc[x], q[p.c]) == Owed(p, q[p.c])
  {
    hide Step, Inv, Shape;
    BroadcastMoves(s, policy, x, a);
    if s.pc[x].l == BcTest { NoneLeft(s, q, policy, x); }
  }

  lemma {:induction false} BroadcastMoves(s: State, policy: Policy, x: nat, a: Action)
    requires Shape(s) && |policy| == |s.pc| && x < |s.pc| && Broadcasting(s.pc[x]) && Inside(s.pc[x]) && s.pc[x].l != BcRelease
    requires Step(s, x, a, policy).Now?
    ensures var s1, p := Step(s, x, a, policy).s, s.pc[x];
            && s1.sem == s.sem
            && if p.l == BcLeave then s1.pc[x] == Running
               else s1.pc[x].At? && s1.pc[x].c == p.c
                    && s1.pc[x].l == if p.l == BcClear then BcLeave else if p.l == BcTest then if p.cur.Null? then BcClear else BcRelease else BcTest
  {
  }

  lemma {:induction false} NoneLeft(s: State, q: seq<seq<nat>>, policy: Policy, x: nat)
    requires Inv(s, q, policy) && x < |s.pc| && s.pc[x].At? && s.pc[x].l == BcTest && s.pc[x].c < |q|
    ensures s.pc[x].cur.Null? <==> q[s.pc[x].c] == []
  {
    assert Inside(s.pc[x]) && s.cs[s.pc[x].c] == To(x);
    assert Root(s, s.pc[x].c) == s.pc[x].cur;
  }

  lemma {:induction false} FirstOnce(list: seq<nat>, y: nat)
    requires Distinct(list) && list != []
    ensures y in list[1..] <==> y in list && y != list[0]
  {
  }

  lemma {:induction false} BroadcastEnters(s: State, q: seq<seq<nat>>, run: Run, policy: Policy, x: nat, c: nat, y: nat) returns (q': seq<seq<nat>>)
    requires Inv(s, q, policy) && Exclusive(policy) && x < |s.pc| && s.pc[x].At? && s.pc[x].l == BcEnter && s.pc[x].c == c
    requires Shape(s) && |policy| == |s.pc| && Returns(s, run, policy, x)
    ensures var e, own := Entered(s, run, policy, x, c), Own(s, run, policy, x);
            && Inv(e, q', policy) && c < |q'| && Given(own, y) == (if y in q'[c] then 1 else 0) && Raised(own) == |q'[c]|
    decreases run
  {
    hide Step, Inv, Own, After, Shape, Exclusive, Given, Raised, Sum, Count, Returns, WaitDoes, Reachable, Hanging;
    ReturnsStep(s, q, run, policy, x);
    var (t, a) := run[0];
    var s1, q1 := Step(s, t, a, policy).s, After(s, q, t);
    NotYetInside(s, q, policy, x, c);
    if t == x { BroadcastGoesIn(s, q, policy, x, a); } else { OthersGoOn(s, policy, x, t, a); }
    StepKeeps(s, q, policy, t, a);
    OwnStep(s, run, policy, x, y);
    if t != x {
      q' := BroadcastEnters(s1, q1, run[1..], policy, x, c, y);
    } else {
      q' := q1;
      BroadcastTail(s1, q1, run[1..], policy, x, y);
    }
  }

  lemma {:induction false} BroadcastGoesIn(s: State, q: seq<seq<nat>>, policy: Policy, x: nat, a: Action)
    requires Inv(s, q, policy) && x < |s.pc| && s.pc[x].At? && s.pc[x].l == BcEnter && Step(s, x, a, policy).Now?
    ensures var s1 := Step(s, x, a, policy).s;
            && s1.pc[x] == s.pc[x].(l := BcStart) && s1.sem == s.sem && s.pc[x].c < |s1.cs| && s1.cs[s.pc[x].c] == To(x)
            && s.pc[x].c < |After(s, q, x)|
  {
  }

  lemma {:induction false} BroadcastStarts(s: State, policy: Policy, x: nat, c: nat)
    requires Shape(s) && |policy| == |s.pc| && x < |s.pc| && s.pc[x] == Running && Step(s, x, Broadcast(c), policy).Now?
    ensures c < |s.cs| && Step(s, x, Broadcast(c), policy).s == s.(pc := s.pc[x := At(BcEnter, c, 0, Null)])
  {
  }

  /** A broadcast, from its call to its return: it raises by one the semaphore of each thread that hangs from c when it
      enters the critical section, and no other. */
  lemma {:induction false} BroadcastReleasesEach(s: State, nc: nat, nm: nat, policy: Policy, run: Run, x: nat, c: nat, y: nat)
    requires Exclusive(policy) && Reachable(s, nc, nm, policy) && Shape(s) && |policy| == |s.pc| && x < |s.pc| && s.pc[x] == Running
    requires Returns(s, run, policy, x) && run[0] == (x, Broadcast(c))
    ensures var e, own := Entered(s, run, policy, x, c), Own(s, run, policy, x);
            && Given(own, y) == (if Hanging(e, y, c) then 1 else 0)
            && Raised(own) == |set t | 0 <= t < |e.pc| && Hanging(e, t, c)|
  {
    hide Step, Inv, Own, After, Shape, Exclusive, Given, Raised, Sum, Reachable, Hanging;
    var q := ReachableInv(s, nc, nm, policy);
    NotInside(s, q, policy, x, c);
    BroadcastStarts(s, policy, x, c);
    StepKeeps(s, q, policy, x, Broadcast(c));
    OwnStep(s, run, policy, x, y);
    var s1 := Step(s, x, Broadcast(c), policy).s;
    var e := Entered(s, run, policy, x, c);
    var q' := BroadcastEnters(s1, After(s, q, x), run[1..], policy, x, c, y);
    HangingIsListed(e, q', policy, c);
    var all := set t | 0 <= t < |e.pc| && Hanging(e, t, c);
    HangingInRange(e, q', policy, c);
    assert all == Elements(q'[c]);
    AsMany(q'[c]);
  }

  lemma {:induction false} HangingInRange(s: State, q: seq<seq<nat>>, policy: Policy, c: nat)
    requires Inv(s, q, policy) && c < |q|
    ensures Distinct(q[c]) && forall t: nat :: Hanging(s, t, c) ==> t < |s.pc|
  {
  }

  function Elements(list: seq<nat>): set<nat> {
    set t | t in list
  }

  lemma {:induction false} AsMany(list: seq<nat>)
    requires Distinct(list)
    ensures |Elements(list)| == |list|
  {
    if list != [] {
      AsMany(list[1..]);
      FirstOnce(list, list[0]);
      assert list == [list[0]] + list[1..];
      assert Elements(list) == Elements(list[1..]) + {list[0]};
    }
  }

  // ----- a wait -----

  /** What the k-th step of a wait on c with mutex m does: the fourth puts the record at the front of the list, the sixth
      gives up a level of the mutex, the seventh takes a token, and the eighth enters the mutex again. */
  predicate WaitDoes(k: nat, o: (State, State), x: nat, c: nat, m: nat) {
    && x < |o.0.sem| && x < |o.0.next| && c < |o.0.waiters| && m < |o.0.mutex|
    && o.1.waiters == (if k == 3 then o.0.waiters[c := To(x)] else o.0.waiters)
    && (k == 3 ==> o.0.next[x] == o.0.waiters[c] && o.1.next == o.0.next)
    && o.1.mutex == (if k == 5 then o.0.mutex[m := ExitLock(o.0.mutex[m])]
                     else if k == 7 then o.0.mutex[m := EntryLock(o.0.mutex[m], x)] else o.0.mutex)
    && (k == 5 ==> x < |o.0.pc| && Queued(o.0.pc[x]) && Holds(o.0.mutex, x, m))
    && (if k == 6 then o.0.sem[x] > 0 && o.1.sem == o.0.sem[x := o.0.sem[x] - 1] else o.1.sem == o.0.sem)
  }

  function StepNumber(l: Label): nat {
    match l
    case WaitEnter => 1 case WaitLink => 2 case WaitPush => 3 case WaitLeave => 4 case WaitUnlock => 5 case WaitSem => 6 case _ => 7
  }

  lemma {:induction false} WaitTail(s: State, q: seq<seq<nat>>, run: Run, policy: Policy, x: nat, c: nat, m: nat)
    requires Inv(s, q, policy) && Exclusive(policy) && x < |s.pc| && Waiting(s.pc[x]) && s.pc[x].c == c && s.pc[x].m == m
    requires Shape(s) && |policy| == |s.pc| && Returns(s, run, policy, x)
    ensures var n, own := StepNumber(s.pc[x].l), Own(s, run, policy, x);
            |own| == 8 - n && forall k :: 0 <= k < |own| ==> WaitDoes(n + k, own[k], x, c, m)
    decreases run
  {
    hide Step, Inv, Own, After, Shape, Exclusive, Given, Raised, Sum, Count, Returns, WaitDoes, Reachable, Hanging;
    ReturnsStep(s, q, run, policy, x);
    var (t, a) := run[0];
    var s1, q1 := Step(s, t, a, policy).s, After(s, q, t);
    if t != x { OthersGoOn(s, policy, x, t, a); } else { WaitStep(s, q, policy, x, a); }
    StepKeeps(s, q, policy, t, a);
    OwnStep(s, run, policy, x, 0);
    if t != x {
      WaitTail(s1, q1, run[1..], policy, x, c, m);
    } else if s1.pc[x].Running? {
      NothingOwn(s1, policy, x, 0);
    } else {
      WaitTail(s1, q1, run[1..], policy, x, c, m);
    }
  }

  lemma {:induction false} WaitStep(s: State, q: seq<seq<nat>>, policy: Policy, x: nat, a: Action)
    requires Inv(s, q, policy) && x < |s.pc| && Waiting(s.pc[x]) && Step(s, x, a, policy).Now?
    ensures var s1, p := Step(s, x, a, policy).s, s.pc[x];
            && WaitDoes(StepNumber(p.l), (s, s1), x, p.c, p.m)
            && if s1.pc[x].Running? then StepNumber(p.l) == 7
               else Waiting(s1.pc[x]) && s1.pc[x].c == p.c && s1.pc[x].m == p.m && StepNumber(s1.pc[x].l) == StepNumber(p.l) + 1
  {
  }

  /** A wait, from its call to its return: the thread takes exactly eight steps, and between giving up one level of the
      mutex and entering it again it takes exactly one token, all after its record is on the list. */
  lemma {:induction false} WaitTakesOne(s: State, nc: nat, nm: nat, policy: Policy, run: Run, x: nat, c: nat, m: nat)
    requires Exclusive(policy) && Reachable(s, nc, nm, policy) && Shape(s) && |policy| == |s.pc| && x < |s.pc| && s.pc[x] == Running
    requires Returns(s, run, policy, x) && run[0] == (x, Wait(c, m))
    ensures var own := Own(s, run, policy, x);
            |own| == 8 && forall k :: 0 <= k < |own| ==> WaitDoes(k, own[k], x, c, m)
  {
    hide Step, WaitDoes, Inv, Own, After, Shape, Exclusive, Reachable;
    var q := ReachableInv(s, nc, nm, policy);
    WaitStarts(s, policy, x, c, m);
    StepKeeps(s, q, policy, x, Wait(c, m));
    OwnStep(s, run, policy, x, 0);
    WaitTail(Step(s, x, Wait(c, m), policy).s, After(s, q, x), run[1..], policy, x, c, m);
  }

  lemma {:induction false} WaitStarts(s: State, policy: Policy, x: nat, c: nat, m: nat)
    requires Shape(s) && |policy| == |s.pc| && x < |s.pc| && s.pc[x] == Running && Step(s, x, Wait(c, m), policy).Now?
    ensures Step(s, x, Wait(c, m), policy).s == s.(pc := s.pc[x := At(WaitEnter, c, m, Null)])
    ensures WaitDoes(0, (s, Step(s, x, Wait(c, m), policy).s), x, c, m)
  {
  }
}
