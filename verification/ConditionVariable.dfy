/** The WIN32 condition variables of Xthreads.h, one C statement per atomic step.

  Every thread owns one waiter record (a semaphore and a `next` link).  A condition
  variable is a critical section and the head of a list of such records.  Threads,
  condition variables and mutexes are numbered; there may be any number of each.
  */
module ConditionVariable {

  /** A pointer to a thread's waiter record, or the owner of a critical section. */
  datatype Link = Null | To(t: nat)

  /** A Win32 critical section used as a client mutex: it nests. */
  datatype Lock = Free | Held(owner: nat, depth: nat)

  /** The statements of the three macros, in program order. */
  datatype Label =
    | WaitEnter | WaitLink | WaitPush | WaitLeave | WaitUnlock | WaitSem | WaitLock
    | SigEnter | SigTest | SigRelease | SigPop | SigLeave
    | BcEnter | BcStart | BcTest | BcRelease | BcNext | BcClear | BcLeave

  /** Where a thread stands: outside, or about to execute a statement of a macro applied to the
      condition variable c (and, when waiting, the mutex m); cur is broadcast's loop variable. */
  datatype Pc = Running | At(l: Label, c: nat, m: nat, cur: Link)

  datatype State = State(
    pc: seq<Pc>,          // per thread
    next: seq<Link>,      // per thread: the link of its waiter record
    sem: seq<nat>,        // per thread: the count of its semaphore
    waiters: seq<Link>,   // per condition variable
    cs: seq<Link>,        // per condition variable: who is inside its critical section
    mutex: seq<Lock>)     // per client mutex

  /** What a thread does when it is scheduled: start an operation, or go on with the one it is in. */
  datatype Action = Proceed | Acquire(m: nat) | Drop(m: nat) | Wait(c: nat, m: nat) | Signal(c: nat) | Broadcast(c: nat)

  datatype Outcome = Blocked | Now(s: State)

  /** Which condition variables each thread may wait on. */
  type Policy = seq<set<nat>>

  predicate InRange(l: Link, n: nat) {
    l.To? ==> l.t < n
  }

  predicate Waiting(p: Pc) {
    p.At? && (p.l == WaitEnter || p.l == WaitLink || p.l == WaitPush || p.l == WaitLeave
              || p.l == WaitUnlock || p.l == WaitSem || p.l == WaitLock)
  }

  predicate Signalling(p: Pc) {
    p.At? && (p.l == SigEnter || p.l == SigTest || p.l == SigRelease || p.l == SigPop || p.l == SigLeave)
  }

  predicate Broadcasting(p: Pc) {
    p.At? && !Waiting(p) && !Signalling(p)
  }

  predicate PcShape(p: Pc, n: nat, nc: nat, nm: nat) {
    p.At? ==> p.c < nc && (Waiting(p) ==> p.m < nm) && InRange(p.cur, n)
  }

  /** Array bounds: every number in the state names something that exists. */
  predicate Shape(s: State) {
    && |s.next| == |s.pc| && |s.sem| == |s.pc|
    && |s.cs| == |s.waiters|
    && (forall t :: 0 <= t < |s.pc| ==> PcShape(s.pc[t], |s.pc|, |s.waiters|, |s.mutex|))
    && (forall t :: 0 <= t < |s.pc| ==> InRange(s.next[t], |s.pc|))
    && (forall c :: 0 <= c < |s.waiters| ==> InRange(s.waiters[c], |s.pc|))
    && (forall c :: 0 <= c < |s.waiters| ==> InRange(s.cs[c], |s.pc|))
  }

  /** The state after xcondition_init and xmutex_init, every thread outside, every semaphore at 0. */
  function Init(n: nat, nc: nat, nm: nat): (s: State)
    ensures Shape(s)
  {
    State(seq(n, _ => Running), seq(n, _ => Null), seq(n, _ => 0),
          seq(nc, _ => Null), seq(nc, _ => Null), seq(nm, _ => Free))
  }

  /** Thread t goes to statement p. */
  function Goto(s: State, t: nat, p: Pc): (r: State)
    requires Shape(s) && t < |s.pc| && PcShape(p, |s.pc|, |s.waiters|, |s.mutex|)
    ensures Shape(r)
  {
    s.(pc := s.pc[t := p])
  }

  function SetNext(s: State, t: nat, l: Link): (r: State)
    requires Shape(s) && t < |s.pc| && InRange(l, |s.pc|)
    ensures Shape(r)
  {
    s.(next := s.next[t := l])
  }

  function SetWaiters(s: State, c: nat, l: Link): (r: State)
    requires Shape(s) && c < |s.waiters| && InRange(l, |s.pc|)
    ensures Shape(r)
  {
    s.(waiters := s.waiters[c := l])
  }

  function SetCs(s: State, c: nat, l: Link): (r: State)
    requires Shape(s) && c < |s.waiters| && InRange(l, |s.pc|)
    ensures Shape(r)
  {
    s.(cs := s.cs[c := l])
  }

  function EntryLock(l: Lock, t: nat): Lock {
    if l.Free? then Held(t, 1) else Held(l.owner, l.depth + 1)
  }

  function ExitLock(l: Lock): Lock {
    if l.Held? && l.depth > 1 then Held(l.owner, l.depth - 1) else Free
  }

  function EnterMutex(s: State, t: nat, m: nat): (r: State)
    requires Shape(s) && m < |s.mutex|
    ensures Shape(r)
  {
    s.(mutex := s.mutex[m := EntryLock(s.mutex[m], t)])
  }

  function LeaveMutex(s: State, m: nat): (r: State)
    requires Shape(s) && m < |s.mutex|
    ensures Shape(r)
  {
    s.(mutex := s.mutex[m := ExitLock(s.mutex[m])])
  }

  predicate Holds(mutex: seq<Lock>, t: nat, m: nat) {
    m < |mutex| && mutex[m].Held? && mutex[m].owner == t
  }

  predicate CanEnter(l: Lock, t: nat) {
    l.Free? || l.owner == t
  }

  /** Thread t starts operation a.  Waiting needs the mutex, and the policy's permission. */
  function Start(s: State, t: nat, a: Action, policy: Policy): (o: Outcome)
    requires Shape(s) && t < |s.pc| && |policy| == |s.pc|
    ensures o.Now? ==> Shape(o.s) && |o.s.pc| == |s.pc|
  {
    match a
    case Proceed => Blocked
    case Acquire(m) =>
      if m < |s.mutex| && CanEnter(s.mutex[m], t) then Now(EnterMutex(s, t, m)) else Blocked
    case Drop(m) =>
      if Holds(s.mutex, t, m) then Now(LeaveMutex(s, m)) else Blocked
    case Wait(c, m) =>
      if c < |s.waiters| && c in policy[t] && Holds(s.mutex, t, m) then Now(Goto(s, t, At(WaitEnter, c, m, Null))) else Blocked
    case Signal(c) =>
      if c < |s.waiters| then Now(Goto(s, t, At(SigEnter, c, 0, Null))) else Blocked
    case Broadcast(c) =>
      if c < |s.waiters| then Now(Goto(s, t, At(BcEnter, c, 0, Null))) else Blocked
  }

  /** Thread t enters the critical section of its condition variable, or blocks. */
  function EnterCs(s: State, t: nat, p: Pc): (o: Outcome)
    requires Shape(s) && t < |s.pc| && PcShape(p, |s.pc|, |s.waiters|, |s.mutex|) && p.At?
    ensures o.Now? ==> Shape(o.s) && |o.s.pc| == |s.pc|
  {
    if s.cs[p.c].Null? then Now(SetCs(Goto(s, t, p), p.c, To(t))) else Blocked
  }

  /** Thread t, on its way to p, releases the semaphore of thread x. */
  function Release(s: State, t: nat, p: Pc, x: nat): (r: State)
    requires Shape(s) && t < |s.pc| && PcShape(p, |s.pc|, |s.waiters|, |s.mutex|) && x < |s.pc|
    ensures Shape(r) && |r.pc| == |s.pc|
  {
    Goto(s, t, p).(sem := s.sem[x := s.sem[x] + 1])
  }

  /** Thread t, on its way to p, takes a token from its own semaphore, or blocks. */
  function Acquired(s: State, t: nat, p: Pc): (o: Outcome)
    requires Shape(s) && t < |s.pc| && PcShape(p, |s.pc|, |s.waiters|, |s.mutex|)
    ensures o.Now? ==> Shape(o.s) && |o.s.pc| == |s.pc|
  {
    if s.sem[t] == 0 then Blocked
    else Now(Goto(s, t, p).(sem := s.sem[t := s.sem[t] - 1]))
  }

  /** xcondition_wait, from the statement p.l on. */
  function ContinueWait(s: State, t: nat): (o: Outcome)
    requires Shape(s) && t < |s.pc| && Waiting(s.pc[t])
    ensures o.Now? ==> Shape(o.s) && |o.s.pc| == |s.pc|
  {
    var p := s.pc[t];
    match p.l
    case WaitEnter => EnterCs(s, t, p.(l := WaitLink))
    case WaitLink => Now(SetNext(Goto(s, t, p.(l := WaitPush)), t, s.waiters[p.c]))
    case WaitPush => Now(SetWaiters(Goto(s, t, p.(l := WaitLeave)), p.c, To(t)))
    case WaitLeave => Now(SetCs(Goto(s, t, p.(l := WaitUnlock)), p.c, Null))
    case WaitUnlock => Now(LeaveMutex(Goto(s, t, p.(l := WaitSem)), p.m))
    case WaitSem => Acquired(s, t, p.(l := WaitLock))
    case WaitLock => if CanEnter(s.mutex[p.m], t) then Now(EnterMutex(Goto(s, t, Running), t, p.m)) else Blocked
  }

  /** xcondition_signal, from the statement p.l on. */
  function ContinueSignal(s: State, t: nat): (o: Outcome)
    requires Shape(s) && t < |s.pc| && Signalling(s.pc[t])
    ensures o.Now? ==> Shape(o.s) && |o.s.pc| == |s.pc|
  {
    var p := s.pc[t];
    var head := s.waiters[p.c];
    match p.l
    case SigEnter => EnterCs(s, t, p.(l := SigTest))
    case SigTest => Now(Goto(s, t, p.(l := if head.Null? then SigLeave else SigRelease)))
    case SigRelease => if head.Null? then Blocked else Now(Release(s, t, p.(l := SigPop), head.t))
    case SigPop => if head.Null? then Blocked else Now(SetWaiters(Goto(s, t, p.(l := SigLeave)), p.c, s.next[head.t]))
    case SigLeave => Now(SetCs(Goto(s, t, Running), p.c, Null))
  }

  /** xcondition_broadcast, from the statement p.l on. */
  function ContinueBroadcast(s: State, t: nat): (o: Outcome)
    requires Shape(s) && t < |s.pc| && Broadcasting(s.pc[t])
    ensures o.Now? ==> Shape(o.s) && |o.s.pc| == |s.pc|
  {
    var p := s.pc[t];
    match p.l
    case BcEnter => EnterCs(s, t, p.(l := BcStart))
    case BcStart => Now(Goto(s, t, p.(l := BcTest, cur := s.waiters[p.c])))
    case BcTest => Now(Goto(s, t, p.(l := if p.cur.Null? then BcClear else BcRelease)))
    case BcRelease => if p.cur.Null? then Blocked else Now(Release(s, t, p.(l := BcNext), p.cur.t))
    case BcNext => if p.cur.Null? then Blocked else Now(Goto(s, t, p.(l := BcTest, cur := s.next[p.cur.t])))
    case BcClear => Now(SetWaiters(Goto(s, t, p.(l := BcLeave)), p.c, Null))
    case BcLeave => Now(SetCs(Goto(s, t, Running), p.c, Null))
  }

  /** One scheduling step. */
  function Step(s: State, t: nat, a: Action, policy: Policy): (o: Outcome)
    requires Shape(s) && |policy| == |s.pc|
    ensures o.Now? ==> Shape(o.s) && |o.s.pc| == |s.pc|
  {
    if t >= |s.pc| then Blocked
    else if s.pc[t].Running? then Start(s, t, a, policy)
    else if a != Proceed then Blocked
    else if Waiting(s.pc[t]) then ContinueWait(s, t)
    else if Signalling(s.pc[t]) then ContinueSignal(s, t)
    else ContinueBroadcast(s, t)
  }

  /** The state a schedule leads to, if every step in it could be taken. */
  function Execute(s: State, run: seq<(nat, Action)>, policy: Policy): (o: Outcome)
    requires Shape(s) && |policy| == |s.pc|
    ensures o.Now? ==> Shape(o.s) && |o.s.pc| == |s.pc|
    decreases run
  {
    if run == [] then Now(s) else
    match Step(s, run[0].0, run[0].1, policy)
    case Blocked => Blocked
    case Now(s1) => Execute(s1, run[1..], policy)
  }

  // ----- what must hold in every reachable state -----

  /** Following `next` from p visits exactly the threads of q, in order, and ends. */
  ghost predicate ListIs(next: seq<Link>, p: Link, q: seq<nat>)
    decreases q
  {
    if q == [] then p == Null
    else p == To(q[0]) && q[0] < |next| && ListIs(next, next[q[0]], q[1..])
  }

  ghost predicate Distinct(q: seq<nat>) {
    forall i, j :: 0 <= i < j < |q| ==> q[i] != q[j]
  }

  /** The thread has put its record on the list of its condition variable and has not yet passed its semaphore. */
  predicate Queued(p: Pc) {
    p.At? && (p.l == WaitLeave || p.l == WaitUnlock || p.l == WaitSem)
  }

  /** The thread is inside the critical section of its condition variable. */
  predicate Inside(p: Pc) {
    p.At? && !(p.l == WaitEnter || p.l == WaitUnlock || p.l == WaitSem || p.l == WaitLock || p.l == SigEnter || p.l == BcEnter)
  }

  /** The record a signaller or broadcaster has just released and still has to step past. */
  function Passed(p: Pc, waiters: seq<Link>): (r: Link)
    requires p.At? ==> p.c < |waiters|
  {
    if p.Running? then Null
    else if p.l == SigPop then waiters[p.c]
    else if p.l == BcNext then p.cur
    else Null
  }

  /** The pointer from which the threads still to be woken hang, given the statement the owner of the
      critical section is at.  While a signal or a broadcast is under way this is not the list head:
      the records in front of it have been released already. */
  function RootAt(p: Pc, next: seq<Link>, waiters: seq<Link>, c: nat): (r: Link)
    requires c < |waiters|
  {
    if p.Running? || p.c != c then waiters[c]
    else if p.l == SigPop && waiters[c].To? && waiters[c].t < |next| then next[waiters[c].t]
    else if p.l == BcTest || p.l == BcRelease then p.cur
    else if p.l == BcNext && p.cur.To? && p.cur.t < |next| then next[p.cur.t]
    else if p.l == BcClear then Null
    else waiters[c]
  }

  function Root(s: State, c: nat): (r: Link)
    requires Shape(s) && c < |s.waiters|
  {
    RootAt(if s.cs[c].To? then s.pc[s.cs[c].t] else Running, s.next, s.waiters, c)
  }

  /** q[c] is the list of threads hanging from condition variable c. */
  ghost predicate Lists(s: State, q: seq<seq<nat>>)
    requires Shape(s)
  {
    && |q| == |s.waiters|
    && (forall c :: 0 <= c < |q| ==> ListIs(s.next, Root(s, c), q[c]) && Distinct(q[c]))
  }

  /** A queued thread is on the list of its condition variable and owed nothing, or on no list and
      owed exactly one token; any other thread is on no list and owed nothing. */
  ghost predicate Balanced(pc: seq<Pc>, sem: seq<nat>, q: seq<seq<nat>>)
    requires |sem| == |pc|
  {
    && (forall t, c :: 0 <= t < |pc| && 0 <= c < |q| ==> (t in q[c] <==> Queued(pc[t]) && pc[t].c == c && sem[t] == 0))
    && (forall t :: 0 <= t < |pc| ==> sem[t] <= 1 && (sem[t] == 1 ==> Queued(pc[t])))
  }

  /** No wakeup is lost, none is duplicated, none is spurious. */
  ghost predicate Accounted(s: State)
    requires Shape(s)
  {
    exists q :: Lists(s, q) && Balanced(s.pc, s.sem, q)
  }

  // ----- the inductive invariant -----

  /** Inside the critical section of c means owning it. */
  ghost predicate Owners(pc: seq<Pc>, cs: seq<Link>) {
    && (forall t :: 0 <= t < |pc| && Inside(pc[t]) ==> pc[t].c < |cs| && cs[pc[t].c] == To(t))
    && (forall c :: 0 <= c < |cs| && cs[c].To? ==> cs[c].t < |pc| && Inside(pc[cs[c].t]) && pc[cs[c].t].c == c)
  }

  ghost predicate PointersAt(p: Pc, t: nat, next: seq<Link>, waiters: seq<Link>, policy: Policy)
    requires t < |next| && (p.At? ==> p.c < |waiters|)
  {
    var r := Passed(p, waiters);
    && (p.At? && (p.l == SigRelease || p.l == SigPop) ==> waiters[p.c].To?)
    && (p.At? && (p.l == BcRelease || p.l == BcNext) ==> p.cur.To?)
    && (p.At? && p.l == WaitPush ==> next[t] == waiters[p.c])
    && (r.To? ==> r.t < |policy| && r.t != t && p.c in policy[r.t])
  }

  ghost predicate PointersFit(p: Pc, t: nat, next: seq<Link>, waiters: seq<Link>, policy: Policy) {
    t < |next| && (p.At? ==> p.c < |waiters|) && PointersAt(p, t, next, waiters, policy)
  }

  ghost predicate Pointers(pc: seq<Pc>, next: seq<Link>, waiters: seq<Link>, policy: Policy) {
    forall t :: 0 <= t < |pc| ==> PointersFit(pc[t], t, next, waiters, policy)
  }

  ghost predicate Permitted(pc: seq<Pc>, policy: Policy)
    requires |policy| == |pc|
  {
    forall t :: 0 <= t < |pc| && Waiting(pc[t]) ==> pc[t].c in policy[t]
  }

  /** A thread that has called xcondition_wait holds the mutex until it gives it up itself. */
  ghost predicate HoldsMutex(pc: seq<Pc>, mutex: seq<Lock>)
  {
    forall t :: 0 <= t < |pc| && Waiting(pc[t]) && pc[t].l != WaitSem && pc[t].l != WaitLock ==> Holds(mutex, t, pc[t].m)
  }

  ghost predicate Inv(s: State, q: seq<seq<nat>>, policy: Policy) {
    Shape(s) && |policy| == |s.pc| && Lists(s, q) && Balanced(s.pc, s.sem, q)
    && Owners(s.pc, s.cs) && Pointers(s.pc, s.next, s.waiters, policy) && Permitted(s.pc, policy) && HoldsMutex(s.pc, s.mutex)
  }

  /** No thread that may wait on two condition variables shares one of them with a second thread
      while a third can signal it. */
  ghost predicate Exclusive(policy: Policy) {
    forall t, u, s, c, d :: !Shared(policy, t, u, s, c, d)
  }

  /** t may wait on c and d, u may wait on c, and s is there to signal. */
  predicate Shared(policy: Policy, t: nat, u: nat, s: nat, c: nat, d: nat) {
    && t < |policy| && u < |policy| && s < |policy| && t != u && u != s && s != t
    && c != d && c in policy[t] && d in policy[t] && c in policy[u]
  }

  // ----- how each part of the invariant survives a change -----

  lemma {:induction false} BalancedMove(pc: seq<Pc>, sem: seq<nat>, q: seq<seq<nat>>, t: nat, p: Pc)
    requires |sem| == |pc| && Balanced(pc, sem, q) && t < |pc|
    requires Queued(p) <==> Queued(pc[t])
    requires Queued(p) ==> p.c == pc[t].c
    ensures Balanced(pc[t := p], sem, q)
  {
  }

  lemma {:induction false} BalancedPush(pc: seq<Pc>, sem: seq<nat>, q: seq<seq<nat>>, t: nat, p: Pc)
    requires |sem| == |pc| && Balanced(pc, sem, q) && t < |pc|
    requires !Queued(pc[t]) && Queued(p) && p.c < |q|
    ensures Balanced(pc[t := p], sem, q[p.c := [t] + q[p.c]])
  {
  }

  lemma {:induction false} BalancedWake(pc: seq<Pc>, sem: seq<nat>, q: seq<seq<nat>>, t: nat, p: Pc, c: nat, x: nat)
    requires |sem| == |pc| && Balanced(pc, sem, q) && t < |pc|
    requires !Queued(pc[t]) && !Queued(p) && c < |q| && q[c] != [] && Distinct(q[c]) && q[c][0] == x < |pc|
    ensures Balanced(pc[t := p], sem[x := sem[x] + 1], q[c := q[c][1..]])
  {
    assert x in q[c];
    forall y | y in q[c] ensures y in q[c][1..] <==> y != x {}
  }

  lemma {:induction false} BalancedPass(pc: seq<Pc>, sem: seq<nat>, q: seq<seq<nat>>, t: nat, p: Pc)
    requires |sem| == |pc| && Balanced(pc, sem, q) && t < |pc|
    requires sem[t] > 0 && !Queued(p)
    ensures Balanced(pc[t := p], sem[t := sem[t] - 1], q)
  {
  }

  lemma {:induction false} OwnersMove(pc: seq<Pc>, cs: seq<Link>, t: nat, p: Pc)
    requires Owners(pc, cs) && t < |pc|
    requires Inside(p) <==> Inside(pc[t])
    requires Inside(p) ==> p.c == pc[t].c
    ensures Owners(pc[t := p], cs)
  {
  }

  lemma {:induction false} OwnersEnter(pc: seq<Pc>, cs: seq<Link>, t: nat, p: Pc)
    requires Owners(pc, cs) && t < |pc| && !Inside(pc[t])
    requires Inside(p) && p.c < |cs| && cs[p.c].Null?
    ensures Owners(pc[t := p], cs[p.c := To(t)])
  {
  }

  lemma {:induction false} OwnersLeave(pc: seq<Pc>, cs: seq<Link>, t: nat, p: Pc)
    requires Owners(pc, cs) && t < |pc| && Inside(pc[t]) && !Inside(p)
    ensures Owners(pc[t := p], cs[pc[t].c := Null])
  {
  }

  lemma {:induction false} PointersMove(pc: seq<Pc>, next: seq<Link>, waiters: seq<Link>, policy: Policy, t: nat, p: Pc)
    requires Pointers(pc, next, waiters, policy) && t < |pc| && t < |next| && (p.At? ==> p.c < |waiters|)
    requires PointersAt(p, t, next, waiters, policy)
    ensures Pointers(pc[t := p], next, waiters, policy)
  {
    assert PointersFit(p, t, next, waiters, policy);
    hide PointersFit;
    var pc' := pc[t := p];
    forall x | 0 <= x < |pc'| ensures PointersFit(pc'[x], x, next, waiters, policy) {
      assert x != t ==> pc'[x] == pc[x];
    }
  }

  lemma {:induction false} PointersNext(pc: seq<Pc>, next: seq<Link>, waiters: seq<Link>, policy: Policy, t: nat, p: Pc)
    requires Pointers(pc, next, waiters, policy) && t < |pc| && t < |next| && p.At? && p.l == WaitPush && p.c < |waiters|
    ensures Pointers(pc[t := p], next[t := waiters[p.c]], waiters, policy)
  {
    var next' := next[t := waiters[p.c]];
    forall x | 0 <= x < |pc| && x != t ensures PointersAt(pc[x], x, next', waiters, policy) {
      assert PointersAt(pc[x], x, next, waiters, policy);
    }
    assert PointersAt(p, t, next', waiters, policy);
  }

  /** Only the owner of the critical section looks at the list head. */
  lemma {:induction false} PointersWaiters(pc: seq<Pc>, next: seq<Link>, waiters: seq<Link>, cs: seq<Link>, policy: Policy, t: nat, p: Pc, l: Link)
    requires Pointers(pc, next, waiters, policy) && Owners(pc, cs) && t < |pc|
    requires Inside(pc[t]) && p.At? && p.c == pc[t].c && (p.l == WaitLeave || p.l == SigLeave || p.l == BcLeave)
    ensures p.c < |waiters| && Pointers(pc[t := p], next, waiters[p.c := l], policy)
  {
    forall x | 0 <= x < |pc| && x != t && Inside(pc[x]) ensures pc[x].c != p.c {}
  }

  lemma {:induction false} PermittedMove(pc: seq<Pc>, policy: Policy, t: nat, p: Pc)
    requires |policy| == |pc| && Permitted(pc, policy) && t < |pc|
    requires Waiting(p) ==> p.c in policy[t]
    ensures Permitted(pc[t := p], policy)
  {
  }

  lemma {:induction false} HoldsMove(pc: seq<Pc>, mutex: seq<Lock>, t: nat, p: Pc)
    requires HoldsMutex(pc, mutex) && t < |pc|
    requires Waiting(p) && p.l != WaitSem && p.l != WaitLock ==> Holds(mutex, t, p.m)
    ensures HoldsMutex(pc[t := p], mutex)
  {
  }

  lemma {:induction false} HoldsChange(pc: seq<Pc>, mutex: seq<Lock>, t: nat, m: nat, l: Lock)
    requires HoldsMutex(pc, mutex) && t < |pc| && m < |mutex|
    requires CanEnter(mutex[m], t) || Holds(mutex, t, m)
    requires Waiting(pc[t]) ==> pc[t].l == WaitSem || pc[t].l == WaitLock
    ensures HoldsMutex(pc, mutex[m := l])
  {
  }

  lemma {:induction false} ListFrame(next: seq<Link>, p: Link, q: seq<nat>, x: nat, v: Link)
    requires ListIs(next, p, q) && x < |next| && x !in q
    ensures ListIs(next[x := v], p, q)
    decreases q
  {
    if q != [] {
      ListFrame(next, next[q[0]], q[1..], x, v);
    }
  }

  /** Nobody else's list hangs from what t does. */
  lemma {:induction false} RootFrame(s: State, s': State, t: nat, c: nat)
    requires Shape(s) && Shape(s') && t < |s.pc| && c < |s.waiters|
    requires |s'.pc| == |s.pc| && |s'.waiters| == |s.waiters| && s'.next == s.next
    requires Owners(s.pc, s.cs)
    requires s'.pc == s.pc[t := s'.pc[t]]
    requires s'.cs[c] == s.cs[c] && s'.waiters[c] == s.waiters[c]
    requires Inside(s.pc[t]) ==> s.pc[t].c != c
    ensures Root(s', c) == Root(s, c)
  {
  }

  // ----- the steps -----

  /** Going to a statement with the same standing. */
  lemma {:induction false} Move(s: State, q: seq<seq<nat>>, policy: Policy, t: nat, p: Pc)
    requires Inv(s, q, policy) && t < |s.pc| && PcShape(p, |s.pc|, |s.waiters|, |s.mutex|)
    requires Inside(p) <==> Inside(s.pc[t])
    requires Queued(p) <==> Queued(s.pc[t])
    requires Inside(p) || Queued(p) ==> p.c == s.pc[t].c
    requires Inside(p) ==> RootAt(p, s.next, s.waiters, p.c) == RootAt(s.pc[t], s.next, s.waiters, p.c)
    requires PointersAt(p, t, s.next, s.waiters, policy)
    requires Waiting(p) ==> p.c in policy[t]
    requires Waiting(p) && p.l != WaitSem && p.l != WaitLock ==> Holds(s.mutex, t, p.m)
    ensures Inv(Goto(s, t, p), q, policy)
  {
    var s' := Goto(s, t, p);
    BalancedMove(s.pc, s.sem, q, t, p);
    OwnersMove(s.pc, s.cs, t, p);
    PointersMove(s.pc, s.next, s.waiters, policy, t, p);
    PermittedMove(s.pc, policy, t, p);
    HoldsMove(s.pc, s.mutex, t, p);
    assert Lists(s', q) by {
      forall c | 0 <= c < |q| ensures Root(s', c) == Root(s, c) {
        if !(Inside(s.pc[t]) && s.pc[t].c == c) { RootFrame(s, s', t, c); }
      }
    }
  }

  lemma {:induction false} Mutex(s: State, q: seq<seq<nat>>, policy: Policy, t: nat, m: nat, l: Lock)
    requires Inv(s, q, policy) && t < |s.pc| && m < |s.mutex|
    requires CanEnter(s.mutex[m], t) || Holds(s.mutex, t, m)
    requires Waiting(s.pc[t]) ==> s.pc[t].l == WaitSem || s.pc[t].l == WaitLock
    ensures Inv(s.(mutex := s.mutex[m := l]), q, policy)
  {
    var s' := s.(mutex := s.mutex[m := l]);
    HoldsChange(s.pc, s.mutex, t, m, l);
    assert Lists(s', q) by {
      forall c | 0 <= c < |q| ensures Root(s', c) == Root(s, c) {}
    }
  }

  /** Entering the critical section: nobody is inside, so the list hangs from its head. */
  lemma {:induction false} Enter(s: State, q: seq<seq<nat>>, policy: Policy, t: nat, p: Pc)
    requires Inv(s, q, policy) && t < |s.pc| && PcShape(p, |s.pc|, |s.waiters|, |s.mutex|)
    requires p.At? && s.pc[t].At? && p == s.pc[t].(l := p.l)
    requires || (s.pc[t].l == WaitEnter && p.l == WaitLink)
             || (s.pc[t].l == SigEnter && p.l == SigTest)
             || (s.pc[t].l == BcEnter && p.l == BcStart)
    requires EnterCs(s, t, p).Now?
    ensures Inv(EnterCs(s, t, p).s, q, policy)
  {
    var s' := EnterCs(s, t, p).s;
    BalancedMove(s.pc, s.sem, q, t, p);
    OwnersEnter(s.pc, s.cs, t, p);
    PointersMove(s.pc, s.next, s.waiters, policy, t, p);
    PermittedMove(s.pc, policy, t, p);
    HoldsMove(s.pc, s.mutex, t, p);
    EnterLists(s, q, t, p);
  }

  lemma {:induction false} EnterLists(s: State, q: seq<seq<nat>>, t: nat, p: Pc)
    requires Shape(s) && Lists(s, q) && Owners(s.pc, s.cs)
    requires t < |s.pc| && PcShape(p, |s.pc|, |s.waiters|, |s.mutex|) && p.At? && s.pc[t].At? && p == s.pc[t].(l := p.l)
    requires (s.pc[t].l == WaitEnter && p.l == WaitLink) || (s.pc[t].l == SigEnter && p.l == SigTest) || (s.pc[t].l == BcEnter && p.l == BcStart)
    requires EnterCs(s, t, p).Now?
    ensures Lists(EnterCs(s, t, p).s, q)
  {
    var s' := EnterCs(s, t, p).s;
    forall c | 0 <= c < |q| ensures Root(s', c) == Root(s, c) {
      if c != p.c { RootFrame(s, s', t, c); }
    }
  }

  predicate Leaving(p: Pc, p': Pc) {
    p.At? && ((p.l == WaitLeave && p' == p.(l := WaitUnlock)) || ((p.l == SigLeave || p.l == BcLeave) && p' == Running))
  }

  lemma {:induction false} LeaveLists(s: State, q: seq<seq<nat>>, t: nat, p: Pc)
    requires Shape(s) && Lists(s, q) && Owners(s.pc, s.cs)
    requires t < |s.pc| && PcShape(p, |s.pc|, |s.waiters|, |s.mutex|) && Leaving(s.pc[t], p)
    ensures Lists(SetCs(Goto(s, t, p), s.pc[t].c, Null), q)
  {
    var s' := SetCs(Goto(s, t, p), s.pc[t].c, Null);
    assert Inside(s.pc[t]);
    forall c | 0 <= c < |q| ensures Root(s', c) == Root(s, c) {
      if c != s.pc[t].c { RootFrame(s, s', t, c); }
    }
  }

  lemma {:induction false} Leave(s: State, q: seq<seq<nat>>, policy: Policy, t: nat, p: Pc)
    requires Inv(s, q, policy) && t < |s.pc| && PcShape(p, |s.pc|, |s.waiters|, |s.mutex|) && Leaving(s.pc[t], p)
    ensures Inv(SetCs(Goto(s, t, p), s.pc[t].c, Null), q, policy)
  {
    var s' := SetCs(Goto(s, t, p), s.pc[t].c, Null);
    BalancedMove(s.pc, s.sem, q, t, p);
    OwnersLeave(s.pc, s.cs, t, p);
    PointersMove(s.pc, s.next, s.waiters, policy, t, p);
    PermittedMove(s.pc, policy, t, p);
    HoldsMove(s.pc, s.mutex, t, p);
    LeaveLists(s, q, t, p);
  }

  lemma {:induction false} PassSemaphore(s: State, q: seq<seq<nat>>, policy: Policy, t: nat, p: Pc)
    requires Inv(s, q, policy) && t < |s.pc| && s.pc[t].At? && s.pc[t].l == WaitSem && p == s.pc[t].(l := WaitLock)
    requires Acquired(s, t, p).Now?
    ensures Inv(Acquired(s, t, p).s, q, policy)
  {
    var s' := Acquired(s, t, p).s;
    BalancedPass(s.pc, s.sem, q, t, p);
    OwnersMove(s.pc, s.cs, t, p);
    PointersMove(s.pc, s.next, s.waiters, policy, t, p);
    PermittedMove(s.pc, policy, t, p);
    HoldsMove(s.pc, s.mutex, t, p);
    assert Lists(s', q) by {
      forall c | 0 <= c < |q| ensures Root(s', c) == Root(s, c) { RootFrame(s, s', t, c); }
    }
  }

  /** Steps of the owner that move the list head on. */
  lemma {:induction false} MoveHead(s: State, q: seq<seq<nat>>, policy: Policy, t: nat, p: Pc, l: Link)
    requires Inv(s, q, policy) && t < |s.pc| && PcShape(p, |s.pc|, |s.waiters|, |s.mutex|) && InRange(l, |s.pc|)
    requires p.At? && s.pc[t].At? && p == s.pc[t].(l := p.l)
    requires (s.pc[t].l == SigPop && p.l == SigLeave) || (s.pc[t].l == BcClear && p.l == BcLeave)
    requires l == RootAt(s.pc[t], s.next, s.waiters, p.c)
    ensures Inv(SetWaiters(Goto(s, t, p), p.c, l), q, policy)
  {
    hide Lists, Balanced, Owners, Pointers, Permitted, HoldsMutex;
    ThreadFacts(s, q, policy, t);
    var s' := SetWaiters(Goto(s, t, p), p.c, l);
    BalancedMove(s.pc, s.sem, q, t, p);
    OwnersMove(s.pc, s.cs, t, p);
    PointersWaiters(s.pc, s.next, s.waiters, s.cs, policy, t, p, l);
    PermittedMove(s.pc, policy, t, p);
    HoldsMove(s.pc, s.mutex, t, p);
    MoveHeadLists(s, q, t, p, l);
  }

  lemma {:induction false} MoveHeadLists(s: State, q: seq<seq<nat>>, t: nat, p: Pc, l: Link)
    requires Shape(s) && Lists(s, q) && Owners(s.pc, s.cs)
    requires t < |s.pc| && PcShape(p, |s.pc|, |s.waiters|, |s.mutex|) && InRange(l, |s.pc|)
    requires p.At? && s.pc[t].At? && p == s.pc[t].(l := p.l)
    requires (s.pc[t].l == SigPop && p.l == SigLeave) || (s.pc[t].l == BcClear && p.l == BcLeave)
    requires l == RootAt(s.pc[t], s.next, s.waiters, p.c)
    ensures Lists(SetWaiters(Goto(s, t, p), p.c, l), q)
  {
    var s' := SetWaiters(Goto(s, t, p), p.c, l);
    forall c | 0 <= c < |q| ensures Root(s', c) == Root(s, c) {
      if c != p.c { RootFrame(s, s', t, c); }
    }
  }

  lemma {:induction false} Push(s: State, q: seq<seq<nat>>, policy: Policy, t: nat, p: Pc)
    requires Inv(s, q, policy) && t < |s.pc| && s.pc[t].At? && s.pc[t].l == WaitPush && p == s.pc[t].(l := WaitLeave)
    ensures Inv(SetWaiters(Goto(s, t, p), p.c, To(t)), q[p.c := [t] + q[p.c]], policy)
  {
    hide Lists, Balanced, Owners, Pointers, Permitted, HoldsMutex, Shape;
    ThreadFacts(s, q, policy, t);
    BalancedPush(s.pc, s.sem, q, t, p);
    OwnersMove(s.pc, s.cs, t, p);
    PointersWaiters(s.pc, s.next, s.waiters, s.cs, policy, t, p, To(t));
    PermittedMove(s.pc, policy, t, p);
    HoldsMove(s.pc, s.mutex, t, p);
    PushLists(s, q, policy, t, p);
  }

  lemma {:induction false} PushLists(s: State, q: seq<seq<nat>>, policy: Policy, t: nat, p: Pc)
    requires Inv(s, q, policy) && t < |s.pc| && s.pc[t].At? && s.pc[t].l == WaitPush && p == s.pc[t].(l := WaitLeave)
    ensures Lists(SetWaiters(Goto(s, t, p), p.c, To(t)), q[p.c := [t] + q[p.c]])
  {
    hide HoldsMutex, Permitted;
    var s' := SetWaiters(Goto(s, t, p), p.c, To(t));
    var q' := q[p.c := [t] + q[p.c]];
    assert q'[p.c][1..] == q[p.c];
    assert t !in q[p.c];
    assert Root(s', p.c) == To(t) && Root(s, p.c) == s.next[t];
    forall c | 0 <= c < |q| && c != p.c ensures Root(s', c) == Root(s, c) { RootFrame(s, s', t, c); }
  }

  /** The thread a signaller or broadcaster is about to wake is the first one hanging from the list. */
  predicate Waking(p: Pc, waiters: seq<Link>, x: nat) {
    p.At? && p.c < |waiters| && ((p.l == SigRelease && waiters[p.c] == To(x)) || (p.l == BcRelease && p.cur == To(x)))
  }

  lemma {:induction false} WakesFirst(s: State, q: seq<seq<nat>>, policy: Policy, t: nat, x: nat)
    requires Inv(s, q, policy) && t < |s.pc| && Waking(s.pc[t], s.waiters, x)
    ensures s.pc[t].c < |q| && q[s.pc[t].c] != [] && q[s.pc[t].c][0] == x && x < |s.pc|
    ensures Queued(s.pc[x]) && s.pc[x].c == s.pc[t].c && s.sem[x] == 0
    ensures ListIs(s.next, s.next[x], q[s.pc[t].c][1..])
  {
    var c := s.pc[t].c;
    assert Root(s, c) == To(x);
    assert x in q[c];
  }

  function Woken(p: Pc): Pc {
    if p.At? then p.(l := if p.l == SigRelease then SigPop else BcNext) else p
  }

  lemma {:induction false} WakeLists(s: State, q: seq<seq<nat>>, t: nat, x: nat)
    requires Shape(s) && Lists(s, q) && Owners(s.pc, s.cs) && t < |s.pc| && x < |s.pc| && Waking(s.pc[t], s.waiters, x)
    requires s.pc[t].c < |q| && q[s.pc[t].c] != [] && ListIs(s.next, s.next[x], q[s.pc[t].c][1..])
    ensures Lists(Release(s, t, Woken(s.pc[t]), x), q[s.pc[t].c := q[s.pc[t].c][1..]])
  {
    var p := Woken(s.pc[t]);
    var s' := Release(s, t, p, x);
    assert Inside(s.pc[t]);
    assert Root(s', p.c) == s.next[x];
    forall c | 0 <= c < |q| && c != p.c ensures Root(s', c) == Root(s, c) { RootFrame(s, s', t, c); }
  }

  lemma {:induction false} WakeOthers(s: State, q: seq<seq<nat>>, policy: Policy, t: nat, x: nat)
    requires Inv(s, q, policy) && t < |s.pc| && x < |s.pc| && Waking(s.pc[t], s.waiters, x)
    requires Queued(s.pc[x]) && s.pc[x].c == s.pc[t].c
    ensures Owners(s.pc[t := Woken(s.pc[t])], s.cs)
    ensures Permitted(s.pc[t := Woken(s.pc[t])], policy)
    ensures HoldsMutex(s.pc[t := Woken(s.pc[t])], s.mutex)
    ensures Pointers(s.pc[t := Woken(s.pc[t])], s.next, s.waiters, policy)
  {
    var p := Woken(s.pc[t]);
    OwnersMove(s.pc, s.cs, t, p);
    PermittedMove(s.pc, policy, t, p);
    HoldsMove(s.pc, s.mutex, t, p);
    PointersMove(s.pc, s.next, s.waiters, policy, t, p);
  }

  lemma {:induction false} WakingShape(s: State, t: nat, x: nat)
    requires Shape(s) && t < |s.pc| && Waking(s.pc[t], s.waiters, x)
    ensures |s.sem| == |s.pc| && PcShape(Woken(s.pc[t]), |s.pc|, |s.waiters|, |s.mutex|) && !Queued(s.pc[t]) && !Queued(Woken(s.pc[t]))
  {
  }

  lemma {:induction false} DistinctList(s: State, q: seq<seq<nat>>, c: nat)
    requires Shape(s) && Lists(s, q) && c < |q|
    ensures Distinct(q[c])
  {
  }

  /** Signal and broadcast hand a token to the thread their list hangs from. */
  lemma {:induction false} Wake(s: State, q: seq<seq<nat>>, policy: Policy, t: nat, x: nat)
    requires Inv(s, q, policy) && t < |s.pc| && x < |s.pc| && Waking(s.pc[t], s.waiters, x)
    ensures s.pc[t].c < |q| && q[s.pc[t].c] != []
    ensures Inv(Release(s, t, Woken(s.pc[t]), x), q[s.pc[t].c := q[s.pc[t].c][1..]], policy)
  {
    hide Shape, Lists, Balanced, Owners, Pointers, Permitted, HoldsMutex, ListIs;
    WakesFirst(s, q, policy, t, x);
    WakingShape(s, t, x);
    DistinctList(s, q, s.pc[t].c);
    BalancedWake(s.pc, s.sem, q, t, Woken(s.pc[t]), s.pc[t].c, x);
    WakeLists(s, q, t, x);
    WakeOthers(s, q, policy, t, x);
  }

  lemma {:induction false} Sharing(s: State, q: seq<seq<nat>>, policy: Policy, t: nat, o: nat, c: nat, d: nat)
    requires Inv(s, q, policy) && t < |s.pc| && o < |s.pc| && t != o && c < |q|
    requires c != d && c in policy[t] && d in policy[t]
    requires !Queued(s.pc[t]) && !Queued(s.pc[o]) && q[c] != []
    ensures Shared(policy, t, q[c][0], o, c, d)
  {
    assert q[c][0] in q[c];
  }

  /** If t may also wait elsewhere, nobody but t and the thread signalling c can be on the list of c. */
  lemma {:induction false} OnlyThese(s: State, q: seq<seq<nat>>, policy: Policy, t: nat, o: nat, c: nat, d: nat)
    requires Inv(s, q, policy) && Exclusive(policy) && t < |s.pc| && o < |s.pc| && t != o && c < |q|
    requires c != d && c in policy[t] && d in policy[t]
    requires !Queued(s.pc[t]) && !Queued(s.pc[o])
    ensures q[c] == []
  {
    if q[c] != [] {
      Sharing(s, q, policy, t, o, c, d);
    }
  }

  /** The heart of the matter: t overwrites its own link while another thread may still have to read it. */
  lemma {:induction false} Unread(s: State, q: seq<seq<nat>>, policy: Policy, t: nat, o: nat)
    requires Inv(s, q, policy) && Exclusive(policy) && t < |s.pc| && o < |s.pc|
    requires s.pc[t].At? && s.pc[t].l == WaitLink && Passed(s.pc[o], s.waiters) == To(t)
    ensures s.waiters[s.pc[t].c] == s.next[t]
  {
    var c, d := s.pc[o].c, s.pc[t].c;
    assert Inside(s.pc[o]) && Inside(s.pc[t]);
    OnlyThese(s, q, policy, t, o, c, d);
    OnlyThese(s, q, policy, t, o, d, c);
    assert Root(s, c) == s.next[t] && Root(s, d) == s.waiters[d];
  }

  lemma {:induction false} LinkRecord(s: State, q: seq<seq<nat>>, policy: Policy, t: nat, p: Pc)
    requires Inv(s, q, policy) && Exclusive(policy) && t < |s.pc| && s.pc[t].At? && s.pc[t].l == WaitLink && p == s.pc[t].(l := WaitPush)
    ensures Inv(SetNext(Goto(s, t, p), t, s.waiters[p.c]), q, policy)
  {
    var s' := SetNext(Goto(s, t, p), t, s.waiters[p.c]);
    BalancedMove(s.pc, s.sem, q, t, p);
    OwnersMove(s.pc, s.cs, t, p);
    PointersNext(s.pc, s.next, s.waiters, policy, t, p);
    PermittedMove(s.pc, policy, t, p);
    HoldsMove(s.pc, s.mutex, t, p);
    forall c | 0 <= c < |q| ensures ListIs(s'.next, Root(s', c), q[c]) {
      LinkedStill(s, q, policy, t, p, c);
    }
  }

  lemma {:induction false} SameRoot(s: State, t: nat, p: Pc, c: nat)
    requires Shape(s) && Owners(s.pc, s.cs) && t < |s.pc| && c < |s.waiters|
    requires s.pc[t].At? && s.pc[t].l == WaitLink && p == s.pc[t].(l := WaitPush)
    requires s.cs[c].To? && Passed(s.pc[s.cs[c].t], s.waiters) == To(t) ==> s.waiters[p.c] == s.next[t]
    ensures Root(SetNext(Goto(s, t, p), t, s.waiters[p.c]), c) == Root(s, c)
  {
  }

  lemma {:induction false} LinkedStill(s: State, q: seq<seq<nat>>, policy: Policy, t: nat, p: Pc, c: nat)
    requires Inv(s, q, policy) && Exclusive(policy) && t < |s.pc| && s.pc[t].At? && s.pc[t].l == WaitLink && p == s.pc[t].(l := WaitPush)
    requires c < |q|
    ensures ListIs(s.next[t := s.waiters[p.c]], Root(SetNext(Goto(s, t, p), t, s.waiters[p.c]), c), q[c])
  {
    if s.cs[c].To? && Passed(s.pc[s.cs[c].t], s.waiters) == To(t) {
      Unread(s, q, policy, t, s.cs[c].t);
    }
    SameRoot(s, t, p, c);
    assert t !in q[c];
    ListFrame(s.next, Root(s, c), q[c], t, s.waiters[p.c]);
  }

  // ----- every run -----

  /** The lists after thread t's next statement. */
  ghost function After(s: State, q: seq<seq<nat>>, t: nat): seq<seq<nat>>
    requires t < |s.pc|
  {
    var p := s.pc[t];
    if p.Running? || p.c >= |q| then q
    else if p.l == WaitPush then q[p.c := [t] + q[p.c]]
    else if (p.l == SigRelease || p.l == BcRelease) && q[p.c] != [] then q[p.c := q[p.c][1..]]
    else q
  }

  /** What the invariant says about thread t. */
  lemma {:induction false} ThreadFacts(s: State, q: seq<seq<nat>>, policy: Policy, t: nat)
    requires Inv(s, q, policy) && t < |s.pc|
    ensures Shape(s) && |policy| == |s.pc| && |q| == |s.waiters| && PcShape(s.pc[t], |s.pc|, |s.waiters|, |s.mutex|)
    ensures |s.next| == |s.sem| == |s.pc| && PointersAt(s.pc[t], t, s.next, s.waiters, policy)
    ensures Waiting(s.pc[t]) ==> s.pc[t].c in policy[t]
    ensures Waiting(s.pc[t]) && s.pc[t].l != WaitSem && s.pc[t].l != WaitLock ==> Holds(s.mutex, t, s.pc[t].m)
  {
  }

  lemma {:induction false} HeadInRange(s: State, c: nat)
    requires Shape(s) && c < |s.waiters|
    ensures s.waiters[c].To? ==> s.waiters[c].t < |s.pc| && InRange(s.next[s.waiters[c].t], |s.pc|)
    ensures InRange(s.waiters[c], |s.pc|)
  {
  }

  lemma {:induction false} WaitKeeps(s: State, q: seq<seq<nat>>, policy: Policy, t: nat)
    requires Inv(s, q, policy) && Exclusive(policy) && t < |s.pc| && Waiting(s.pc[t]) && ContinueWait(s, t).Now?
    ensures Inv(ContinueWait(s, t).s, After(s, q, t), policy)
  {
    hide Inv, Shape, Exclusive, PointersAt;
    ThreadFacts(s, q, policy, t);
    var p := s.pc[t];
    match p.l
    case WaitEnter => Enter(s, q, policy, t, p.(l := WaitLink));
    case WaitLink => LinkRecord(s, q, policy, t, p.(l := WaitPush));
    case WaitPush => Push(s, q, policy, t, p.(l := WaitLeave));
    case WaitLeave => Leave(s, q, policy, t, p.(l := WaitUnlock));
    case WaitUnlock => UnlockKeeps(s, q, policy, t);
    case WaitSem => PassSemaphore(s, q, policy, t, p.(l := WaitLock));
    case WaitLock => LockKeeps(s, q, policy, t);
  }

  lemma {:induction false} UnlockKeeps(s: State, q: seq<seq<nat>>, policy: Policy, t: nat)
    requires Inv(s, q, policy) && t < |s.pc| && s.pc[t].At? && s.pc[t].l == WaitUnlock
    ensures Shape(s) && PcShape(s.pc[t].(l := WaitSem), |s.pc|, |s.waiters|, |s.mutex|) && s.pc[t].m < |s.mutex|
    ensures Inv(LeaveMutex(Goto(s, t, s.pc[t].(l := WaitSem)), s.pc[t].m), q, policy)
  {
    hide Inv, Shape;
    ThreadFacts(s, q, policy, t);
    var p := s.pc[t];
    Move(s, q, policy, t, p.(l := WaitSem));
    Mutex(Goto(s, t, p.(l := WaitSem)), q, policy, t, p.m, ExitLock(s.mutex[p.m]));
  }

  lemma {:induction false} LockKeeps(s: State, q: seq<seq<nat>>, policy: Policy, t: nat)
    requires Inv(s, q, policy) && t < |s.pc| && s.pc[t].At? && s.pc[t].l == WaitLock
    requires s.pc[t].m < |s.mutex| && CanEnter(s.mutex[s.pc[t].m], t)
    ensures Shape(s) && Inv(EnterMutex(Goto(s, t, Running), t, s.pc[t].m), q, policy)
  {
    hide Inv, Shape;
    ThreadFacts(s, q, policy, t);
    var p := s.pc[t];
    Move(s, q, policy, t, Running);
    Mutex(Goto(s, t, Running), q, policy, t, p.m, EntryLock(s.mutex[p.m], t));
  }

  lemma {:induction false} TestKeeps(s: State, q: seq<seq<nat>>, policy: Policy, t: nat)
    requires Inv(s, q, policy) && t < |s.pc| && Signalling(s.pc[t]) && s.pc[t].l == SigTest
    ensures ContinueSignal(s, t).Now? && Inv(ContinueSignal(s, t).s, q, policy)
  {
    var p := s.pc[t];
    Move(s, q, policy, t, p.(l := if s.waiters[p.c].Null? then SigLeave else SigRelease));
  }

  lemma {:induction false} SignalKeeps(s: State, q: seq<seq<nat>>, policy: Policy, t: nat)
    requires Inv(s, q, policy) && t < |s.pc| && Signalling(s.pc[t]) && ContinueSignal(s, t).Now?
    ensures Inv(ContinueSignal(s, t).s, After(s, q, t), policy)
  {
    hide Inv, Shape;
    ThreadFacts(s, q, policy, t);
    HeadInRange(s, s.pc[t].c);
    var p := s.pc[t];
    match p.l
    case SigEnter => Enter(s, q, policy, t, p.(l := SigTest));
    case SigTest => TestKeeps(s, q, policy, t);
    case SigRelease => Wake(s, q, policy, t, s.waiters[p.c].t);
    case SigPop => MoveHead(s, q, policy, t, p.(l := SigLeave), s.next[s.waiters[p.c].t]);
    case SigLeave => Leave(s, q, policy, t, Running);
  }

  lemma {:induction false} CursorKeeps(s: State, q: seq<seq<nat>>, policy: Policy, t: nat)
    requires Inv(s, q, policy) && t < |s.pc| && Broadcasting(s.pc[t])
    requires s.pc[t].l == BcStart || s.pc[t].l == BcTest || s.pc[t].l == BcNext
    ensures ContinueBroadcast(s, t).Now? && Inv(ContinueBroadcast(s, t).s, q, policy)
  {
    var p := s.pc[t];
    Move(s, q, policy, t, match p.l
                          case BcStart => p.(l := BcTest, cur := s.waiters[p.c])
                          case BcTest => p.(l := if p.cur.Null? then BcClear else BcRelease)
                          case BcNext => p.(l := BcTest, cur := s.next[p.cur.t]));
  }

  lemma {:induction false} BroadcastKeeps(s: State, q: seq<seq<nat>>, policy: Policy, t: nat)
    requires Inv(s, q, policy) && t < |s.pc| && Broadcasting(s.pc[t]) && ContinueBroadcast(s, t).Now?
    ensures Inv(ContinueBroadcast(s, t).s, After(s, q, t), policy)
  {
    hide Inv, Shape;
    ThreadFacts(s, q, policy, t);
    HeadInRange(s, s.pc[t].c);
    var p := s.pc[t];
    match p.l
    case BcEnter => Enter(s, q, policy, t, p.(l := BcStart));
    case BcRelease => Wake(s, q, policy, t, p.cur.t);
    case BcClear => MoveHead(s, q, policy, t, p.(l := BcLeave), Null);
    case BcLeave => Leave(s, q, policy, t, Running);
    case _ => CursorKeeps(s, q, policy, t);
  }

  lemma {:induction false} StartKeeps(s: State, q: seq<seq<nat>>, policy: Policy, t: nat, a: Action)
    requires Inv(s, q, policy) && t < |s.pc| && s.pc[t] == Running && Start(s, t, a, policy).Now?
    ensures Inv(Start(s, t, a, policy).s, q, policy)
  {
    match a
    case Proceed =>
    case Acquire(m) => Mutex(s, q, policy, t, m, EntryLock(s.mutex[m], t));
    case Drop(m) => Mutex(s, q, policy, t, m, ExitLock(s.mutex[m]));
    case Wait(c, m) => Move(s, q, policy, t, At(WaitEnter, c, m, Null));
    case Signal(c) => Move(s, q, policy, t, At(SigEnter, c, 0, Null));
    case Broadcast(c) => Move(s, q, policy, t, At(BcEnter, c, 0, Null));
  }

  lemma {:induction false} StepKeeps(s: State, q: seq<seq<nat>>, policy: Policy, t: nat, a: Action)
    requires Inv(s, q, policy) && Exclusive(policy) && Step(s, t, a, policy).Now?
    ensures Inv(Step(s, t, a, policy).s, After(s, q, t), policy)
  {
    if s.pc[t].Running? { StartKeeps(s, q, policy, t, a); }
    else if Waiting(s.pc[t]) { WaitKeeps(s, q, policy, t); }
    else if Signalling(s.pc[t]) { SignalKeeps(s, q, policy, t); }
    else { BroadcastKeeps(s, q, policy, t); }
  }

  lemma {:induction false} ExecuteKeeps(s: State, q: seq<seq<nat>>, policy: Policy, run: seq<(nat, Action)>)
      returns (q': seq<seq<nat>>)
    requires Inv(s, q, policy) && Exclusive(policy) && Execute(s, run, policy).Now?
    ensures Inv(Execute(s, run, policy).s, q', policy)
    decreases run
  {
    if run == [] {
      q' := q;
    } else {
      StepKeeps(s, q, policy, run[0].0, run[0].1);
      q' := ExecuteKeeps(Step(s, run[0].0, run[0].1, policy).s, After(s, q, run[0].0), policy, run[1..]);
    }
  }

  lemma {:induction false} InitInv(n: nat, nc: nat, nm: nat, policy: Policy)
    requires |policy| == n
    ensures Inv(Init(n, nc, nm), seq(nc, _ => []), policy)
  {
  }

  // ----- what a reachable state promises -----

  /** s can be reached from the initial state by a schedule that obeys the policy. */
  ghost predicate Reachable(s: State, nc: nat, nm: nat, policy: Policy) {
    exists run :: Execute(Init(|policy|, nc, nm), run, policy) == Now(s)
  }

  /** Under an exclusive policy no wakeup is lost, duplicated or spurious, however the threads are scheduled. */
  lemma {:induction false} ReachableIsAccounted(s: State, nc: nat, nm: nat, policy: Policy)
    requires Exclusive(policy) && Reachable(s, nc, nm, policy)
    ensures Shape(s) && Accounted(s)
  {
    var q := ReachableInv(s, nc, nm, policy);
  }

  lemma {:induction false} ReachableInv(s: State, nc: nat, nm: nat, policy: Policy) returns (q: seq<seq<nat>>)
    requires Exclusive(policy) && Reachable(s, nc, nm, policy)
    ensures Inv(s, q, policy)
  {
    var run :| Execute(Init(|policy|, nc, nm), run, policy) == Now(s);
    InitInv(|policy|, nc, nm, policy);
    q := ExecuteKeeps(Init(|policy|, nc, nm), seq(nc, _ => []), policy, run);
  }

  /** Queued on c and not yet handed a token. */
  predicate Hanging(s: State, t: nat, c: nat) {
    t < |s.pc| && t < |s.sem| && Queued(s.pc[t]) && s.pc[t].c == c && s.sem[t] == 0
  }

  /** A signal gives its one token to a hanging thread exactly when there is one. */
  lemma {:induction false} SignalFindsAWaiter(s: State, nc: nat, nm: nat, policy: Policy, t: nat)
    requires Exclusive(policy) && Reachable(s, nc, nm, policy) && t < |s.pc| && Signalling(s.pc[t])
    ensures Shape(s) && s.pc[t].c < |s.waiters|
    ensures s.pc[t].l == SigTest ==> ((exists x :: Hanging(s, x, s.pc[t].c)) <==> s.waiters[s.pc[t].c].To?)
    ensures s.pc[t].l == SigRelease ==> s.waiters[s.pc[t].c].To? && Hanging(s, s.waiters[s.pc[t].c].t, s.pc[t].c)
  {
    var q := ReachableInv(s, nc, nm, policy);
    var c := s.pc[t].c;
    if s.pc[t].l == SigTest || s.pc[t].l == SigRelease {
      assert Root(s, c) == s.waiters[c];
      if q[c] == [] {
        forall x | Hanging(s, x, c) ensures x in q[c] {}
      } else {
        assert q[c][0] in q[c];
        assert Hanging(s, q[c][0], c);
      }
    }
  }

  /** When a broadcast has run off the end of the list, nobody is left hanging. */
  lemma {:induction false} BroadcastReleasesAll(s: State, nc: nat, nm: nat, policy: Policy, t: nat)
    requires Exclusive(policy) && Reachable(s, nc, nm, policy) && t < |s.pc| && Broadcasting(s.pc[t])
    ensures s.pc[t].l == BcClear ==> forall x :: !Hanging(s, x, s.pc[t].c)
    ensures s.pc[t].l == BcRelease ==> s.pc[t].cur.To? && Hanging(s, s.pc[t].cur.t, s.pc[t].c)
  {
    var q := ReachableInv(s, nc, nm, policy);
    var c := s.pc[t].c;
    assert Inside(s.pc[t]) ==> s.cs[c] == To(t);
    if s.pc[t].l == BcClear {
      assert q[c] == [];
      forall x | Hanging(s, x, c) ensures x in q[c] {}
    } else if s.pc[t].l == BcRelease {
      assert q[c][0] in q[c];
    }
  }

  /** As long as anyone hangs from c and nobody is inside its critical section, the list is there to be found. */
  lemma {:induction false} HangingIsFindable(s: State, nc: nat, nm: nat, policy: Policy, t: nat, c: nat)
    requires Exclusive(policy) && Reachable(s, nc, nm, policy) && Hanging(s, t, c)
    ensures Shape(s) && c < |s.cs| && (s.cs[c].Null? ==> s.waiters[c].To?)
  {
    var q := ReachableInv(s, nc, nm, policy);
    assert t in q[c];
  }

  /** Between calling and returning, the mutex is held except around the semaphore wait: the call gives
      up one level of it, blocks, and comes back holding it one level deeper again. */
  lemma {:induction false} WaitGivesBackTheMutex(s: State, nc: nat, nm: nat, policy: Policy, t: nat)
    requires Exclusive(policy) && Reachable(s, nc, nm, policy) && t < |s.pc| && Waiting(s.pc[t]) && Shape(s)
    ensures s.pc[t].l == WaitUnlock ==> Holds(s.mutex, t, s.pc[t].m)
    ensures ContinueWait(s, t).Now? && s.pc[t].l == WaitUnlock && s.mutex[s.pc[t].m].depth <= 1 ==>
              ContinueWait(s, t).s.mutex[s.pc[t].m] == Free
    ensures ContinueWait(s, t).Now? && ContinueWait(s, t).s.pc[t] == Running ==> Holds(ContinueWait(s, t).s.mutex, t, s.pc[t].m)
  {
    var q := ReachableInv(s, nc, nm, policy);
  }

  // ----- tokens over a whole run -----

  predicate HandsTo(s: State, t: nat, x: nat) {
    t < |s.pc| && Waking(s.pc[t], s.waiters, x)
  }

  predicate Passes(s: State, t: nat, x: nat) {
    t == x < |s.pc| && s.pc[t].At? && s.pc[t].l == WaitSem
  }

  /** How many tokens the run hands to thread x. */
  function Handed(s: State, run: seq<(nat, Action)>, policy: Policy, x: nat): nat
    requires Shape(s) && |policy| == |s.pc|
    decreases run
  {
    if run == [] || Step(s, run[0].0, run[0].1, policy).Blocked? then 0
    else (if HandsTo(s, run[0].0, x) then 1 else 0) + Handed(Step(s, run[0].0, run[0].1, policy).s, run[1..], policy, x)
  }

  /** How often thread x gets past its semaphore in the run. */
  function Completed(s: State, run: seq<(nat, Action)>, policy: Policy, x: nat): nat
    requires Shape(s) && |policy| == |s.pc|
    decreases run
  {
    if run == [] || Step(s, run[0].0, run[0].1, policy).Blocked? then 0
    else (if Passes(s, run[0].0, x) then 1 else 0) + Completed(Step(s, run[0].0, run[0].1, policy).s, run[1..], policy, x)
  }

  lemma {:induction false} StepTokens(s: State, t: nat, a: Action, policy: Policy, x: nat)
    requires Shape(s) && |policy| == |s.pc| && x < |s.pc| && Step(s, t, a, policy).Now?
    ensures Step(s, t, a, policy).s.sem[x] + (if Passes(s, t, x) then 1 else 0) == s.sem[x] + (if HandsTo(s, t, x) then 1 else 0)
  {
    if Waiting(s.pc[t]) {
      hide Start, ContinueSignal, ContinueBroadcast;
    } else {
      OtherTokens(s, t, a, policy, x);
    }
  }

  lemma {:induction false} OtherTokens(s: State, t: nat, a: Action, policy: Policy, x: nat)
    requires Shape(s) && |policy| == |s.pc| && x < |s.pc| && Step(s, t, a, policy).Now? && !Waiting(s.pc[t])
    ensures Step(s, t, a, policy).s.sem[x] + (if Passes(s, t, x) then 1 else 0) == s.sem[x] + (if HandsTo(s, t, x) then 1 else 0)
  {
    hide ContinueWait;
  }

  lemma {:induction false} RunTokens(s: State, run: seq<(nat, Action)>, policy: Policy, x: nat)
    requires Shape(s) && |policy| == |s.pc| && x < |s.pc| && Execute(s, run, policy).Now?
    ensures Execute(s, run, policy).s.sem[x] + Completed(s, run, policy, x) == s.sem[x] + Handed(s, run, policy, x)
    decreases run
  {
    if run != [] {
      StepTokens(s, run[0].0, run[0].1, policy, x);
      RunTokens(Step(s, run[0].0, run[0].1, policy).s, run[1..], policy, x);
    }
  }

  /** Over every run, a thread is woken once for every wait it completes, and once more exactly when it
      is queued, off the list and about to pass. */
  lemma {:induction false} EveryWaitIsPaidOnce(run: seq<(nat, Action)>, nc: nat, nm: nat, policy: Policy, x: nat)
    requires Exclusive(policy) && x < |policy| && Execute(Init(|policy|, nc, nm), run, policy).Now?
    ensures var s := Execute(Init(|policy|, nc, nm), run, policy).s;
            Handed(Init(|policy|, nc, nm), run, policy, x)
            == Completed(Init(|policy|, nc, nm), run, policy, x)
               + if Queued(s.pc[x]) && !Hanging(s, x, s.pc[x].c) then 1 else 0
  {
    var s0 := Init(|policy|, nc, nm);
    var s := Execute(s0, run, policy).s;
    RunTokens(s0, run, policy, x);
    var q := ReachableInv(s, nc, nm, policy);
  }

  // ----- a policy that is not exclusive loses a wakeup -----

  ghost predicate Reaches(s: State, s': State, policy: Policy) {
    Shape(s) && |policy| == |s.pc| && exists run :: Execute(s, run, policy) == Now(s')
  }

  lemma {:induction false} ExecuteThen(s: State, run: seq<(nat, Action)>, policy: Policy, t: nat, a: Action)
    requires Shape(s) && |policy| == |s.pc| && Execute(s, run, policy).Now?
    ensures Execute(s, run + [(t, a)], policy) == Step(Execute(s, run, policy).s, t, a, policy)
    decreases run
  {
    if run == [] {
      assert run + [(t, a)] == [(t, a)];
    } else {
      assert (run + [(t, a)])[1..] == run[1..] + [(t, a)];
      ExecuteThen(Step(s, run[0].0, run[0].1, policy).s, run[1..], policy, t, a);
    }
  }

  lemma {:induction false} Onward(s0: State, s: State, t: nat, a: Action, policy: Policy) returns (s': State)
    requires Reaches(s0, s, policy) && Shape(s) && |policy| == |s.pc| && Step(s, t, a, policy).Now?
    ensures s' == Step(s, t, a, policy).s && Reaches(s0, s', policy) && Shape(s') && |s'.pc| == |policy|
  {
    var run :| Execute(s0, run, policy) == Now(s);
    ExecuteThen(s0, run, policy, t, a);
    s' := Step(s, t, a, policy).s;
    assert Execute(s0, run + [(t, a)], policy) == Now(s');
  }

  /** t calls xcondition_wait(c, m) with nobody in its way and gets as far as overwriting its link. */
  lemma {:induction false} WaitToLink(s0: State, s: State, t: nat, c: nat, m: nat, policy: Policy) returns (s': State)
    requires Reaches(s0, s, policy) && Shape(s) && |policy| == |s.pc| && t < |s.pc| && c < |s.cs| && m < |s.mutex|
    requires s.pc[t] == Running && s.cs[c] == Null && s.mutex[m] == Held(t, 1) && c in policy[t]
    ensures Reaches(s0, s', policy) && Shape(s') && |s'.pc| == |policy|
    ensures s' == s.(pc := s.pc[t := At(WaitPush, c, m, Null)], cs := s.cs[c := To(t)], next := s.next[t := s.waiters[c]])
  {
    hide Reaches, Execute;
    var s1 := Onward(s0, s, t, Wait(c, m), policy);
    var s2 := Onward(s0, s1, t, Proceed, policy);
    s' := Onward(s0, s2, t, Proceed, policy);
    assert s'.pc == s.pc[t := At(WaitPush, c, m, Null)];
  }

  /** t takes the mutex, waits on c with nobody in its way, and blocks on its semaphore. */
  lemma {:induction false} WaitToBlock(s0: State, s: State, t: nat, c: nat, m: nat, policy: Policy) returns (s': State)
    requires Reaches(s0, s, policy) && Shape(s) && |policy| == |s.pc| && t < |s.pc| && c < |s.cs| && m < |s.mutex|
    requires s.pc[t] == Running && s.cs[c] == Null && s.mutex[m] == Free && c in policy[t]
    ensures Reaches(s0, s', policy) && Shape(s') && |s'.pc| == |policy|
    ensures s' == s.(pc := s.pc[t := At(WaitSem, c, m, Null)], next := s.next[t := s.waiters[c]], waiters := s.waiters[c := To(t)])
  {
    hide Reaches, Execute;
    var s1 := Onward(s0, s, t, Acquire(m), policy);
    var s4 := WaitToLink(s0, s1, t, c, m, policy);
    var s5 := Onward(s0, s4, t, Proceed, policy);
    var s6 := Onward(s0, s5, t, Proceed, policy);
    assert s6.cs == s.cs;
    s' := Onward(s0, s6, t, Proceed, policy);
    assert s'.mutex == s.mutex;
    assert s'.pc == s.pc[t := At(WaitSem, c, m, Null)];
  }

  /** Thread x signals c as far as having released the first waiter t. */
  lemma {:induction false} SignalToPop(s0: State, s: State, x: nat, c: nat, t: nat, policy: Policy) returns (s': State)
    requires Reaches(s0, s, policy) && Shape(s) && |policy| == |s.pc| && x < |s.pc| && c < |s.cs|
    requires s.pc[x] == Running && s.cs[c] == Null && s.waiters[c] == To(t)
    ensures Reaches(s0, s', policy) && Shape(s') && |s'.pc| == |policy|
    ensures s' == s.(pc := s.pc[x := At(SigPop, c, 0, Null)], cs := s.cs[c := To(x)], sem := s.sem[t := s.sem[t] + 1])
  {
    hide Reaches, Execute;
    var s2 := SignalToTest(s0, s, x, c, policy);
    s' := ReleaseToPop(s0, s2, x, c, t, policy);
    assert s'.pc == s.pc[x := At(SigPop, c, 0, Null)];
  }

  lemma {:induction false} SignalToTest(s0: State, s: State, x: nat, c: nat, policy: Policy) returns (s': State)
    requires Reaches(s0, s, policy) && Shape(s) && |policy| == |s.pc| && x < |s.pc| && c < |s.cs|
    requires s.pc[x] == Running && s.cs[c] == Null
    ensures Reaches(s0, s', policy) && Shape(s') && |s'.pc| == |policy|
    ensures s' == s.(pc := s.pc[x := At(SigTest, c, 0, Null)], cs := s.cs[c := To(x)])
  {
    hide Reaches, Execute;
    var s1 := Onward(s0, s, x, Signal(c), policy);
    s' := Onward(s0, s1, x, Proceed, policy);
    assert s'.pc == s.pc[x := At(SigTest, c, 0, Null)];
  }

  lemma {:induction false} ReleaseToPop(s0: State, s: State, x: nat, c: nat, t: nat, policy: Policy) returns (s': State)
    requires Reaches(s0, s, policy) && Shape(s) && |policy| == |s.pc| && x < |s.pc| && c < |s.cs|
    requires s.pc[x] == At(SigTest, c, 0, Null) && s.waiters[c] == To(t)
    ensures Reaches(s0, s', policy) && Shape(s') && |s'.pc| == |policy|
    ensures s' == s.(pc := s.pc[x := At(SigPop, c, 0, Null)], sem := s.sem[t := s.sem[t] + 1])
  {
    hide Reaches, Execute;
    var s1 := Onward(s0, s, x, Proceed, policy);
    s' := Onward(s0, s1, x, Proceed, policy);
    assert s'.pc == s.pc[x := At(SigPop, c, 0, Null)];
  }

  /** t passes its semaphore and takes the mutex back. */
  lemma {:induction false} WakeUp(s0: State, s: State, t: nat, m: nat, policy: Policy) returns (s': State)
    requires Reaches(s0, s, policy) && Shape(s) && |policy| == |s.pc| && t < |s.pc| && m < |s.mutex|
    requires s.pc[t].At? && s.pc[t].l == WaitSem && s.pc[t].m == m && s.sem[t] == 1 && s.mutex[m] == Free
    ensures Reaches(s0, s', policy) && Shape(s') && |s'.pc| == |policy|
    ensures s' == s.(pc := s.pc[t := Running], sem := s.sem[t := 0], mutex := s.mutex[m := Held(t, 1)])
  {
    hide Reaches, Execute;
    var s1 := Onward(s0, s, t, Proceed, policy);
    s' := Onward(s0, s1, t, Proceed, policy);
    assert s'.pc == s.pc[t := Running];
  }

  /** u and t wait on c; x signals c and is preempted after releasing t; t comes back and starts waiting
      on d, which overwrites the link x still has to follow; x then drops u from the list of c. */
  lemma {:induction false} LostWakeup(policy: Policy, nc: nat, nm: nat, t: nat, u: nat, x: nat, c: nat, d: nat) returns (s: State)
    requires Shared(policy, t, u, x, c, d) && c < nc && d < nc && nm > 0
    ensures Reachable(s, nc, nm, policy) && Shape(s) && |s.pc| == |policy| && c < |s.cs|
    ensures s.cs[c] == To(x) && s.pc[x] == At(SigLeave, c, 0, Null) && s.waiters[c] == Null && Hanging(s, u, c)
  {
    var s0 := Init(|policy|, nc, nm);
    assert Execute(s0, [], policy) == Now(s0);
    hide Execute;
    var s1 := WaitToBlock(s0, s0, u, c, 0, policy);
    var s2 := WaitToBlock(s0, s1, t, c, 0, policy);
    var s3 := SignalToPop(s0, s2, x, c, t, policy);
    var s4 := WakeUp(s0, s3, t, 0, policy);
    var s5 := WaitToLink(s0, s4, t, d, 0, policy);
    s := PopDrops(s0, s5, t, u, x, c, policy);
  }

  lemma {:induction false} PopDrops(s0: State, s: State, t: nat, u: nat, x: nat, c: nat, policy: Policy) returns (s': State)
    requires Reaches(s0, s, policy) && Shape(s) && |policy| == |s.pc| && x < |s.pc| && c < |s.cs| && t < |s.pc| && u != x
    requires s.pc[x] == At(SigPop, c, 0, Null) && s.cs[c] == To(x) && s.waiters[c] == To(t) && s.next[t] == Null && Hanging(s, u, c)
    ensures Reaches(s0, s', policy) && Shape(s') && |s'.pc| == |policy| && |s'.cs| == |s.cs|
    ensures s'.cs[c] == To(x) && s'.pc[x] == At(SigLeave, c, 0, Null) && s'.waiters[c] == Null && Hanging(s', u, c)
  {
    hide Reaches, Execute;
    s' := Onward(s0, s, x, Proceed, policy);
  }

  /** The condition variables are safe for every schedule exactly under an exclusive policy. */
  lemma {:induction false} SafeExactlyWhenExclusive(policy: Policy, nc: nat, nm: nat)
    requires nm > 0 && forall t, c :: 0 <= t < |policy| && c in policy[t] ==> c < nc
    ensures Exclusive(policy) <==> forall s :: Reachable(s, nc, nm, policy) ==> Shape(s) && Accounted(s)
  {
    if Exclusive(policy) {
      forall s | Reachable(s, nc, nm, policy) ensures Shape(s) && Accounted(s) {
        ReachableIsAccounted(s, nc, nm, policy);
      }
    } else {
      var t, u, x, c, d :| Shared(policy, t, u, x, c, d);
      var s := LostWakeup(policy, nc, nm, t, u, x, c, d);
      assert !Accounted(s) by { NotAccounted(s, x, u, c); }
    }
  }

  lemma {:induction false} NotAccounted(s: State, x: nat, u: nat, c: nat)
    requires Shape(s) && c < |s.cs| && s.cs[c] == To(x) && s.pc[x] == At(SigLeave, c, 0, Null) && s.waiters[c] == Null && Hanging(s, u, c)
    ensures !Accounted(s)
  {
    forall q | Lists(s, q) && Balanced(s.pc, s.sem, q) ensures u in q[c] {
      assert Queued(s.pc[u]) && s.pc[u].c == c;
    }
    forall q | Lists(s, q) ensures q[c] == [] {
      EmptyList(s.next, q[c]);
    }
  }

  lemma {:induction false} EmptyList(next: seq<Link>, q: seq<nat>)
    requires ListIs(next, Null, q)
    ensures q == []
  {
  }
}
