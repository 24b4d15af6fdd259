/** The condition variables of Xthreads.h on WIN32: a stack of waiters, one node and one semaphore to a thread, under a
    critical section. Threads interleave at every access to shared state. */
module XthreadsCondition {
  import opened Options

  type Thread = nat

  /** Where a thread is: outside, or at a statement of xcondition_wait, xcondition_signal or xcondition_broadcast. */
  datatype Pc =
    | Outside
    // EnterCriticalSection(cs); node->next = waiters; waiters = node; Leave(cs); Leave(m); WaitForSingleObject; Enter(m)
    | WEnter | WLink | WHead | WLeave | WUnlock | WSleep | WRelock
    // Enter(cs); ReleaseSemaphore if there is a waiter; waiters = waiters->next; Leave(cs)
    | SEnter | SRelease | SUnlink | SLeave
    // Enter(cs); for each waiter: ReleaseSemaphore, then its next; waiters = NULL; Leave(cs)
    | BEnter | BStart | BLoop(at: Option<Thread>) | BNext(released: Thread) | BLeave
  {
    predicate InCs() { WLink? || WHead? || WLeave? || SRelease? || SUnlink? || SLeave? || BStart? || BLoop? || BNext? || BLeave? }

    // In xcondition_wait, on the list or signalled, and not yet past WaitForSingleObject.
    predicate Waiting() { WLeave? || WUnlock? || WSleep? }

    // In xcondition_wait before m is given up.
    predicate HoldsM() { WEnter? || WLink? || WHead? || WLeave? || WUnlock? }
  }

  /** The node of a thread is known by the thread. */
  datatype State = State(
    waiters: Option<Thread>, next: map<Thread, Option<Thread>>, sem: map<Thread, nat>,
    cs: Option<Thread>, m: Option<Thread>, pc: map<Thread, Pc>)

  predicate Shaped(s: State, threads: set<Thread>) {
    s.next.Keys == s.sem.Keys == s.pc.Keys == threads
  }

  function Goto(s: State, t: Thread, pc: Pc): State { s.(pc := s.pc[t := pc]) }

  /** One step of thread t. Outside, a thread may lock and unlock m, and start any operation; to wait it must hold m. */
  predicate Step(s: State, t: Thread, s': State)
    requires t in s.pc && t in s.sem
  {
    match s.pc[t]
    case Outside =>
      || (s.m == None && s' == s.(m := Some(t)))
      || (s.m == Some(t) && s' == s.(m := None))
      || (s.m == Some(t) && s' == Goto(s, t, WEnter))
      || s' == Goto(s, t, SEnter)
      || s' == Goto(s, t, BEnter)
    case WEnter => s.cs == None && s' == Goto(s, t, WLink).(cs := Some(t))
    case WLink => s' == Goto(s, t, WHead).(next := s.next[t := s.waiters])
    case WHead => s' == Goto(s, t, WLeave).(waiters := Some(t))
    case WLeave => s' == Goto(s, t, WUnlock).(cs := None)
    case WUnlock => s' == Goto(s, t, WSleep).(m := None)
    case WSleep => s.sem[t] > 0 && s' == Goto(s, t, WRelock).(sem := s.sem[t := s.sem[t] - 1])
    case WRelock => s.m == None && s' == Goto(s, t, Outside).(m := Some(t))
    case SEnter => s.cs == None && s' == Goto(s, t, SRelease).(cs := Some(t))
    case SRelease =>
      if s.waiters == None then s' == Goto(s, t, SLeave)
      else s.waiters.value in s.sem && s' == Goto(s, t, SUnlink).(sem := Released(s.sem, s.waiters.value))
    case SUnlink =>
      s.waiters.Some? && s.waiters.value in s.next && s' == Goto(s, t, SLeave).(waiters := s.next[s.waiters.value])
    case SLeave => s' == Goto(s, t, Outside).(cs := None)
    case BEnter => s.cs == None && s' == Goto(s, t, BStart).(cs := Some(t))
    case BStart => s' == Goto(s, t, BLoop(s.waiters))
    case BLoop(None) => s' == Goto(s, t, BLeave).(waiters := None)
    case BLoop(Some(w)) => w in s.sem && s' == Goto(s, t, BNext(w)).(sem := Released(s.sem, w))
    case BNext(w) => w in s.next && s' == Goto(s, t, BLoop(s.next[w]))
    case BLeave => s' == Goto(s, t, Outside).(cs := None)
  }

  function Released(sem: map<Thread, nat>, w: Thread): map<Thread, nat>
    requires w in sem
  {
    sem[w := sem[w] + 1]
  }

  // ----- what the list stands for

  /** The threads on the list, newest first; the first `done` of them have been signalled already, by the operation
      under way. */
  datatype Queue = Queue(q: seq<Thread>, done: nat)

  function At(q: seq<Thread>, i: nat): Option<Thread> { if i < |q| then Some(q[i]) else None }

  predicate Distinct(q: seq<Thread>) { forall i, j | 0 <= i < j < |q| :: q[i] != q[j] }

  // The linked list from s.waiters is q.
  predicate Linked(s: State, q: seq<Thread>, threads: set<Thread>)
    requires Shaped(s, threads)
  {
    && s.waiters == At(q, 0) && Distinct(q)
    && (forall i | 0 <= i < |q| :: q[i] in threads)
    && (forall i | 0 <= i < |q| :: s.next[q[i]] == At(q, i + 1))
  }

  // t is on the list and has not been signalled.
  predicate Unsignalled(a: Queue, t: Thread) { exists i | a.done <= i < |a.q| :: a.q[i] == t }

  /** A thread in xcondition_wait, enqueued and not past its semaphore, is either still to be signalled or has its
      semaphore at 1; no other semaphore is up, and no other thread is still to be signalled. */
  predicate Accounted(s: State, a: Queue, threads: set<Thread>)
    requires Shaped(s, threads)
  {
    forall t | t in threads ::
      && (Unsignalled(a, t) ==> s.pc[t].Waiting())
      && s.sem[t] == (if s.pc[t].Waiting() && !Unsignalled(a, t) then 1 else 0)
  }

  // How far the operation in the critical section has got.
  predicate InStep(s: State, a: Queue, t: Thread)
    requires t in s.pc && t in s.next
  {
    match s.pc[t]
    case WLink | WLeave | SRelease | SLeave | BStart | BLeave => a.done == 0
    case WHead => a.done == 0 && s.next[t] == s.waiters
    case SUnlink => a.done == 1 && a.q != []
    case BLoop(at) => at == At(a.q, a.done)
    case BNext(w) => 0 < a.done <= |a.q| && a.q[a.done - 1] == w
    case _ => true
  }

  // The critical section, and how far the operation inside it has got.
  predicate Exclusive(s: State, a: Queue, threads: set<Thread>)
    requires Shaped(s, threads)
  {
    && a.done <= |a.q|
    && (s.cs.Some? ==> s.cs.value in threads)
    && (forall t | t in threads :: s.pc[t].InCs() <==> s.cs == Some(t))
    && (s.cs == None ==> a.done == 0)
    && (forall t | t in threads :: InStep(s, a, t))
  }

  predicate MutexHeld(s: State, threads: set<Thread>)
    requires Shaped(s, threads)
  {
    && (forall t | t in threads && s.pc[t].HoldsM() :: s.m == Some(t))
    && (s.m.Some? ==> s.m.value in threads && !s.pc[s.m.value].WSleep? && !s.pc[s.m.value].WRelock?)
  }

  predicate Inv(s: State, a: Queue, threads: set<Thread>) {
    Shaped(s, threads) && Linked(s, a.q, threads) && Accounted(s, a, threads) && Exclusive(s, a, threads)
    && MutexHeld(s, threads)
  }

  // What a step does to the queue.
  function Moved(s: State, t: Thread, a: Queue): Queue
    requires t in s.pc
  {
    match s.pc[t]
    case WHead => Queue([t] + a.q, a.done)
    case SRelease => if s.waiters == None then a else Queue(a.q, a.done + 1)
    case SUnlink => if a.q == [] then a else Queue(a.q[1..], 0)
    case BLoop(None) => Queue([], 0)
    case BLoop(Some(_)) => Queue(a.q, a.done + 1)
    case _ => a
  }

  // ----- every step keeps the invariant

  lemma StepShape(s: State, threads: set<Thread>, t: Thread, s': State)
    requires Shaped(s, threads) && t in threads && Step(s, t, s')
    ensures Shaped(s', threads) && forall u | u in threads && u != t :: s'.pc[u] == s.pc[u]
  {
    StepMaps(s, t, s');
    hide Step;
  }

  lemma StepMaps(s: State, t: Thread, s': State)
    requires t in s.pc && t in s.sem && t in s.next && Step(s, t, s')
    ensures s'.pc == s.pc[t := s'.pc[t]] && s'.sem.Keys == s.sem.Keys && s'.next.Keys == s.next.Keys
  {
    match s.pc[t] {
      case Outside => case WEnter => case WLink => case WHead => case WLeave => case WUnlock => case WSleep => case WRelock =>
      case SEnter => case SRelease => case SUnlink => case SLeave =>
      case BEnter => case BStart => case BLoop(None) => case BLoop(Some(w)) => case BNext(w) => case BLeave =>
    }
  }

  // A thread that is about to link its node is not on the list.
  lemma NotListed(s: State, a: Queue, threads: set<Thread>, t: Thread)
    requires Inv(s, a, threads) && t in threads && (s.pc[t].WLink? || s.pc[t].WHead?)
    ensures forall i | 0 <= i < |a.q| :: a.q[i] != t
  {
    hide MutexHeld;
    forall i | 0 <= i < |a.q|
      ensures a.q[i] != t
    {
      assert a.done == 0 && Unsignalled(a, a.q[i]);
    }
  }

  lemma LinkedPush(s: State, q: seq<Thread>, threads: set<Thread>, t: Thread, s': State)
    requires Shaped(s, threads) && Shaped(s', threads) && Linked(s, q, threads) && t in threads && t !in q
    requires s'.waiters == Some(t) && s'.next == s.next && s.next[t] == s.waiters
    ensures Linked(s', [t] + q, threads)
  {
    forall i | 0 <= i < |q| + 1
      ensures s.next[([t] + q)[i]] == At([t] + q, i + 1)
    {
      if i > 0 { assert s.next[q[i - 1]] == At(q, i); }
    }
  }

  lemma LinkedPop(s: State, q: seq<Thread>, threads: set<Thread>, s': State)
    requires Shaped(s, threads) && Shaped(s', threads) && Linked(s, q, threads) && q != []
    requires s'.waiters == s.next[q[0]] && s'.next == s.next
    ensures Linked(s', q[1..], threads)
  {
    assert s.next[q[0]] == At(q, 1);
    forall i | 0 <= i < |q| - 1
      ensures s.next[q[1..][i]] == At(q[1..], i + 1)
    {
      assert s.next[q[i + 1]] == At(q, i + 2);
    }
  }

  lemma LinkedSame(s: State, q: seq<Thread>, threads: set<Thread>, s': State)
    requires Shaped(s, threads) && Shaped(s', threads) && Linked(s, q, threads)
    requires s'.waiters == s.waiters && forall u | u in q :: s'.next[u] == s.next[u]
    ensures Linked(s', q, threads)
  {
  }

  // The steps that write the list: the other ones leave it as it is, but for the node that is about to be linked.
  lemma OwnLinks(s: State, a: Queue, threads: set<Thread>, t: Thread, s': State)
    requires Shaped(s, threads) && t in threads && Step(s, t, s')
    requires !s.pc[t].WHead? && !s.pc[t].SUnlink? && s.pc[t] != BLoop(None)
    ensures s'.waiters == s.waiters && Moved(s, t, a).q == a.q
    ensures forall u | u in s.next && (u != t || !s.pc[t].WLink?) :: u in s'.next && s'.next[u] == s.next[u]
  {
    match s.pc[t] {
      case Outside => case WEnter => case WLink => case WLeave => case WUnlock => case WSleep => case WRelock =>
      case SEnter => case SRelease => case SLeave =>
      case BEnter => case BStart => case BLoop(Some(w)) => case BNext(w) => case BLeave =>
    }
  }

  lemma StepLinked(s: State, a: Queue, threads: set<Thread>, t: Thread, s': State)
    requires Inv(s, a, threads) && t in threads && Step(s, t, s')
    ensures Shaped(s', threads) && Linked(s', Moved(s, t, a).q, threads)
  {
    hide Accounted, MutexHeld, Step, Linked, Moved;
    StepShape(s, threads, t, s');
    if s.pc[t].WHead? || s.pc[t].SUnlink? || s.pc[t] == BLoop(None) {
      HeadLinked(s, a, threads, t, s');
    } else {
      OwnLinks(s, a, threads, t, s');
      if s.pc[t].WLink? { NotListed(s, a, threads, t); }
      ListedThreads(s, a.q, threads);
      LinkedSame(s, a.q, threads, s');
    }
  }

  lemma ListedThreads(s: State, q: seq<Thread>, threads: set<Thread>)
    requires Shaped(s, threads) && Linked(s, q, threads)
    ensures forall u | u in q :: u in s.next
  {
  }

  lemma HeadLinked(s: State, a: Queue, threads: set<Thread>, t: Thread, s': State)
    requires Inv(s, a, threads) && t in threads && Step(s, t, s') && Shaped(s', threads)
    requires s.pc[t].WHead? || s.pc[t].SUnlink? || s.pc[t] == BLoop(None)
    ensures Linked(s', Moved(s, t, a).q, threads)
  {
    hide Accounted, MutexHeld;
    CsKept(s, a, threads, t);
    match s.pc[t] {
      case WHead =>
        NotListed(s, a, threads, t);
        LinkedPush(s, a.q, threads, t, s');
      case SUnlink => LinkedPop(s, a.q, threads, s');
      case BLoop(None) =>
    }
  }

  lemma UnsignalledPush(a: Queue, t: Thread, u: Thread)
    requires a.done == 0
    ensures Unsignalled(Queue([t] + a.q, 0), u) <==> u == t || Unsignalled(a, u)
  {
    var b := Queue([t] + a.q, 0);
    assert b.q[0] == t;
    if Unsignalled(a, u) {
      var i :| a.done <= i < |a.q| && a.q[i] == u;
      assert b.q[i + 1] == u;
    }
  }

  lemma UnsignalledPop(a: Queue, u: Thread)
    requires a.done == 1 && a.q != []
    ensures Unsignalled(Queue(a.q[1..], 0), u) <==> Unsignalled(a, u)
  {
    var b := Queue(a.q[1..], 0);
    if Unsignalled(a, u) {
      var i :| a.done <= i < |a.q| && a.q[i] == u;
      assert b.q[i - 1] == u;
    }
    if Unsignalled(b, u) {
      var i :| 0 <= i < |b.q| && b.q[i] == u;
      assert a.q[i + 1] == u;
    }
  }

  lemma UnsignalledNext(a: Queue, u: Thread)
    requires a.done < |a.q| && Distinct(a.q)
    ensures Unsignalled(a, a.q[a.done])
    ensures Unsignalled(Queue(a.q, a.done + 1), u) <==> Unsignalled(a, u) && u != a.q[a.done]
  {
    if Unsignalled(a, u) && u != a.q[a.done] {
      var i :| a.done <= i < |a.q| && a.q[i] == u;
      assert a.done + 1 <= i < |a.q|;
    }
  }

  // Raising the semaphore of the newest thread still to be signalled.
  lemma AccountedRelease(s: State, a: Queue, threads: set<Thread>, s': State)
    requires Shaped(s, threads) && Shaped(s', threads) && Accounted(s, a, threads)
    requires a.done < |a.q| && Distinct(a.q) && a.q[a.done] in threads && s'.sem == Released(s.sem, a.q[a.done])
    requires forall u | u in threads :: s'.pc[u].Waiting() <==> s.pc[u].Waiting()
    ensures Accounted(s', Queue(a.q, a.done + 1), threads)
  {
    hide Unsignalled;
    forall u | u in threads
      ensures Unsignalled(Queue(a.q, a.done + 1), u) ==> s'.pc[u].Waiting()
      ensures s'.sem[u] == if s'.pc[u].Waiting() && !Unsignalled(Queue(a.q, a.done + 1), u) then 1 else 0
    {
      UnsignalledNext(a, u);
    }
  }

  // A queue that changes in form only.
  lemma AccountedSame(s: State, a: Queue, b: Queue, threads: set<Thread>, s': State)
    requires Shaped(s, threads) && Shaped(s', threads) && Accounted(s, a, threads) && s'.sem == s.sem
    requires forall u | u in threads :: s'.pc[u].Waiting() <==> s.pc[u].Waiting()
    requires forall u | u in threads :: Unsignalled(b, u) <==> Unsignalled(a, u)
    ensures Accounted(s', b, threads)
  {
    hide Unsignalled;
  }

  lemma AccountedPush(s: State, a: Queue, threads: set<Thread>, t: Thread, s': State)
    requires Shaped(s, threads) && Shaped(s', threads) && Accounted(s, a, threads) && s'.sem == s.sem && a.done == 0
    requires t in threads && !s.pc[t].Waiting() && s'.pc[t].Waiting()
    requires forall u | u in threads && u != t :: s'.pc[u].Waiting() <==> s.pc[u].Waiting()
    ensures Accounted(s', Queue([t] + a.q, 0), threads)
  {
    hide Unsignalled;
    forall u | u in threads
      ensures Unsignalled(Queue([t] + a.q, 0), u) ==> s'.pc[u].Waiting()
      ensures s'.sem[u] == if s'.pc[u].Waiting() && !Unsignalled(Queue([t] + a.q, 0), u) then 1 else 0
    {
      UnsignalledPush(a, t, u);
    }
  }

  // Passing the semaphore.
  lemma AccountedWake(s: State, a: Queue, threads: set<Thread>, t: Thread, s': State)
    requires Shaped(s, threads) && Shaped(s', threads) && Accounted(s, a, threads)
    requires t in threads && s.pc[t].Waiting() && !s'.pc[t].Waiting() && s.sem[t] > 0 && s'.sem == s.sem[t := s.sem[t] - 1]
    requires forall u | u in threads && u != t :: s'.pc[u].Waiting() <==> s.pc[u].Waiting()
    ensures Accounted(s', a, threads)
  {
    hide Unsignalled;
  }

  lemma AllSignalled(a: Queue, u: Thread)
    requires a.done >= |a.q|
    ensures !Unsignalled(a, u) && !Unsignalled(Queue([], 0), u)
  {
  }

  // Steps that raise or pass no semaphore and put nobody on the list.
  lemma StepQuiet(s: State, threads: set<Thread>, t: Thread, s': State)
    requires Shaped(s, threads) && t in threads && Step(s, t, s')
    requires !s.pc[t].WHead? && !s.pc[t].WSleep? && !(s.pc[t].SRelease? && s.waiters.Some?)
    requires !(s.pc[t].BLoop? && s.pc[t].at.Some?)
    ensures s'.sem == s.sem && Shaped(s', threads) && forall u | u in threads :: s'.pc[u].Waiting() <==> s.pc[u].Waiting()
  {
    StepShape(s, threads, t, s');
    OwnQuiet(s, threads, t, s');
    hide Step;
  }

  lemma OwnQuiet(s: State, threads: set<Thread>, t: Thread, s': State)
    requires Shaped(s, threads) && t in threads && Step(s, t, s')
    requires !s.pc[t].WHead? && !s.pc[t].WSleep? && !(s.pc[t].SRelease? && s.waiters.Some?)
    requires !(s.pc[t].BLoop? && s.pc[t].at.Some?)
    ensures s'.sem == s.sem && t in s'.pc && (s'.pc[t].Waiting() <==> s.pc[t].Waiting())
  {
    match s.pc[t] {
      case Outside => case WEnter => case WLink => case WHead => case WLeave => case WUnlock => case WSleep => case WRelock =>
      case SEnter => case SRelease => case SUnlink => case SLeave =>
      case BEnter => case BStart => case BLoop(None) => case BLoop(Some(w)) => case BNext(w) => case BLeave =>
    }
  }

  lemma StepAccounted(s: State, a: Queue, threads: set<Thread>, t: Thread, s': State)
    requires Inv(s, a, threads) && t in threads && Step(s, t, s')
    ensures Shaped(s', threads) && Accounted(s', Moved(s, t, a), threads)
  {
    if s.pc[t].WHead? || s.pc[t].WSleep? || (s.pc[t].SRelease? && s.waiters.Some?) || (s.pc[t].BLoop? && s.pc[t].at.Some?) {
      LoudAccounted(s, a, threads, t, s');
    } else {
      QuietAccounted(s, a, threads, t, s');
    }
  }

  // A semaphore that a signal or broadcast raises is that of the next thread to be signalled.
  lemma ReleasesNext(s: State, a: Queue, threads: set<Thread>, t: Thread, s': State)
    requires Shaped(s, threads) && t in threads && InStep(s, a, t) && s.waiters == At(a.q, 0) && Step(s, t, s')
    requires (s.pc[t].SRelease? && s.waiters.Some?) || (s.pc[t].BLoop? && s.pc[t].at.Some?)
    ensures a.done < |a.q| && a.q[a.done] in s.sem && s'.sem == Released(s.sem, a.q[a.done])
    ensures Moved(s, t, a) == Queue(a.q, a.done + 1)
  {
    hide Released;
  }

  lemma LoudAccounted(s: State, a: Queue, threads: set<Thread>, t: Thread, s': State)
    requires Inv(s, a, threads) && t in threads && Step(s, t, s')
    requires s.pc[t].WHead? || s.pc[t].WSleep? || (s.pc[t].SRelease? && s.waiters.Some?) || (s.pc[t].BLoop? && s.pc[t].at.Some?)
    ensures Shaped(s', threads) && Accounted(s', Moved(s, t, a), threads)
  {
    hide Accounted, MutexHeld, Exclusive, Unsignalled;
    StepShape(s, threads, t, s');
    CsKept(s, a, threads, t);
    if s.pc[t].WHead? {
      AccountedPush(s, a, threads, t, s');
    } else if s.pc[t].WSleep? {
      AccountedWake(s, a, threads, t, s');
    } else {
      ReleasesNext(s, a, threads, t, s');
      AccountedRelease(s, a, threads, s');
    }
  }

  lemma QuietAccounted(s: State, a: Queue, threads: set<Thread>, t: Thread, s': State)
    requires Inv(s, a, threads) && t in threads && Step(s, t, s')
    requires !s.pc[t].WHead? && !s.pc[t].WSleep? && !(s.pc[t].SRelease? && s.waiters.Some?)
    requires !(s.pc[t].BLoop? && s.pc[t].at.Some?)
    ensures Shaped(s', threads) && Accounted(s', Moved(s, t, a), threads)
  {
    StepQuiet(s, threads, t, s');
    hide Accounted, MutexHeld, Unsignalled, Step, Moved;
    forall u | u in threads
      ensures Unsignalled(Moved(s, t, a), u) <==> Unsignalled(a, u)
    {
      CsKept(s, a, threads, t);
      QuietUnsignalled(s, a, t, u);
    }
    AccountedSame(s, a, Moved(s, t, a), threads, s');
  }

  lemma QuietUnsignalled(s: State, a: Queue, t: Thread, u: Thread)
    requires t in s.pc && t in s.next && InStep(s, a, t) && !s.pc[t].WHead?
    requires !(s.pc[t].SRelease? && s.waiters.Some?) && !(s.pc[t].BLoop? && s.pc[t].at.Some?)
    ensures Unsignalled(Moved(s, t, a), u) <==> Unsignalled(a, u)
  {
    hide Unsignalled;
    if s.pc[t].SUnlink? { UnsignalledPop(a, u); }
    if s.pc[t].BLoop? { AllSignalled(a, u); }
  }

  // Only the thread that moves enters or leaves the critical section.
  lemma StepCs(s: State, a: Queue, threads: set<Thread>, t: Thread, s': State)
    requires Inv(s, a, threads) && t in threads && Step(s, t, s')
    ensures Shaped(s', threads) && (s'.cs.Some? ==> s'.cs.value in threads)
    ensures forall u | u in threads :: s'.pc[u].InCs() <==> s'.cs == Some(u)
  {
    CsKept(s, a, threads, t);
    StepShape(s, threads, t, s');
    OwnCs(s, threads, t, s');
    hide Inv, Step;
    forall u | u in threads && u != t
      ensures s'.pc[u].InCs() <==> s'.cs == Some(u)
    {
      CsKept(s, a, threads, u);
    }
  }

  lemma CsKept(s: State, a: Queue, threads: set<Thread>, u: Thread)
    requires Inv(s, a, threads) && u in threads
    ensures (s.pc[u].InCs() <==> s.cs == Some(u)) && (s.cs.Some? ==> s.cs.value in threads) && InStep(s, a, u)
    ensures a.done <= |a.q| && (s.cs == None ==> a.done == 0)
  {
    hide Accounted, Linked, MutexHeld;
  }

  // What a thread does to the critical section: enter it when free, or leave it.
  lemma OwnCs(s: State, threads: set<Thread>, t: Thread, s': State)
    requires Shaped(s, threads) && t in threads && Step(s, t, s') && (s.pc[t].InCs() <==> s.cs == Some(t))
    ensures Shaped(s', threads) && (s'.pc[t].InCs() <==> s'.cs == Some(t))
    ensures s'.cs == s.cs || (s.cs == None && s'.cs == Some(t)) || (s.cs == Some(t) && s'.cs == None)
  {
    hide Step;
    StepShape(s, threads, t, s');
    if s.pc[t].InCs() { CsInside(s, threads, t, s'); } else { CsOutside(s, threads, t, s'); }
  }

  lemma CsOutside(s: State, threads: set<Thread>, t: Thread, s': State)
    requires Shaped(s, threads) && Shaped(s', threads) && t in threads && Step(s, t, s') && !s.pc[t].InCs() && s.cs != Some(t)
    ensures (s'.pc[t].InCs() <==> s'.cs == Some(t))
    ensures s'.cs == s.cs || (s.cs == None && s'.cs == Some(t))
  {
    if s.pc[t].Outside? {
      CsStart(s, t, s');
    } else {
      match s.pc[t] {
        case WEnter => case WUnlock => case WSleep => case WRelock => case SEnter => case BEnter =>
      }
    }
  }

  // A thread that starts an operation has not entered the critical section yet.
  lemma CsStart(s: State, t: Thread, s': State)
    requires t in s.pc && t in s.sem && Step(s, t, s') && s.pc[t].Outside?
    ensures s'.cs == s.cs && t in s'.pc && !s'.pc[t].InCs()
  {
  }

  lemma CsInside(s: State, threads: set<Thread>, t: Thread, s': State)
    requires Shaped(s, threads) && Shaped(s', threads) && t in threads && Step(s, t, s') && s.pc[t].InCs() && s.cs == Some(t)
    ensures (s'.pc[t].InCs() <==> s'.cs == Some(t))
    ensures s'.cs == s.cs || s'.cs == None
  {
    match s.pc[t] {
      case WLink => case WHead => case WLeave => case SRelease => case SUnlink => case SLeave =>
      case BStart => case BLoop(None) => case BLoop(Some(w)) => case BNext(w) => case BLeave =>
    }
  }

  // The list is q and the operation of thread t is in step with it.
  predicate Ready(s: State, a: Queue, threads: set<Thread>, t: Thread) {
    && Shaped(s, threads) && t in threads && InStep(s, a, t) && a.done <= |a.q| && (s.cs == None ==> a.done == 0)
    && (s.pc[t].InCs() <==> s.cs == Some(t))
    && s.waiters == At(a.q, 0) && forall i | 0 <= i < |a.q| :: a.q[i] in s.next && s.next[a.q[i]] == At(a.q, i + 1)
  }

  // Outside the critical section nothing happens to the queue.
  lemma OwnOutside(s: State, a: Queue, threads: set<Thread>, t: Thread, s': State)
    requires Ready(s, a, threads, t) && Step(s, t, s') && !s.pc[t].InCs()
    ensures Shaped(s', threads) && InStep(s', Moved(s, t, a), t) && Moved(s, t, a) == a
    ensures s'.cs == None ==> a.done == 0
  {
    hide Released, At;
    match s.pc[t] {
      case Outside => case WEnter => case WUnlock => case WSleep => case WRelock => case SEnter => case BEnter =>
    }
  }

  lemma OwnInside(s: State, a: Queue, threads: set<Thread>, t: Thread, s': State)
    requires Ready(s, a, threads, t) && Step(s, t, s') && s.pc[t].InCs()
    ensures Shaped(s', threads) && InStep(s', Moved(s, t, a), t) && Moved(s, t, a).done <= |Moved(s, t, a).q|
    ensures s'.cs == None ==> Moved(s, t, a).done == 0
  {
    if s.pc[t].BStart? || s.pc[t].BLoop? || s.pc[t].BNext? || s.pc[t].BLeave? {
      OwnBroadcast(s, a, threads, t, s');
    } else {
      match s.pc[t] {
        case WLink => case WHead => case WLeave => case SRelease => case SUnlink => case SLeave =>
      }
    }
  }

  lemma OwnBroadcast(s: State, a: Queue, threads: set<Thread>, t: Thread, s': State)
    requires Ready(s, a, threads, t) && Step(s, t, s')
    requires s.pc[t].BStart? || s.pc[t].BLoop? || s.pc[t].BNext? || s.pc[t].BLeave?
    ensures Shaped(s', threads) && InStep(s', Moved(s, t, a), t) && Moved(s, t, a).done <= |Moved(s, t, a).q|
    ensures s'.cs == None ==> Moved(s, t, a).done == 0
  {
    match s.pc[t] {
      case BStart => case BLoop(None) => case BLoop(Some(w)) => case BNext(w) => case BLeave =>
    }
  }

  // The thread that moves stays in step with the queue.
  lemma StepOwn(s: State, a: Queue, threads: set<Thread>, t: Thread, s': State)
    requires Ready(s, a, threads, t) && Step(s, t, s')
    ensures Shaped(s', threads) && InStep(s', Moved(s, t, a), t) && Moved(s, t, a).done <= |Moved(s, t, a).q|
    ensures s'.cs == None ==> Moved(s, t, a).done == 0
    ensures !s.pc[t].InCs() ==> Moved(s, t, a) == a
  {
    hide Step, Moved, InStep;
    if s.pc[t].InCs() { OwnInside(s, a, threads, t, s'); } else { OwnOutside(s, a, threads, t, s'); }
  }

  lemma StepExclusive(s: State, a: Queue, threads: set<Thread>, t: Thread, s': State)
    requires Inv(s, a, threads) && t in threads && Step(s, t, s')
    ensures Shaped(s', threads) && Exclusive(s', Moved(s, t, a), threads)
  {
    hide Accounted, MutexHeld, Step, Moved, InStep;
    StepShape(s, threads, t, s');
    StepCs(s, a, threads, t, s');
    CsKept(s, a, threads, t);
    StepOwn(s, a, threads, t, s');
    forall u | u in threads && u != t
      ensures InStep(s', Moved(s, t, a), u)
    {
      OthersOut(s, a, threads, t, s', u);
    }
  }

  // A thread in the critical section sees no other thread in it.
  lemma OthersOut(s: State, a: Queue, threads: set<Thread>, t: Thread, s': State, u: Thread)
    requires Inv(s, a, threads) && t in threads && u in threads && u != t && Step(s, t, s')
    ensures Shaped(s', threads) && InStep(s', Moved(s, t, a), u)
  {
    hide Accounted, MutexHeld, Linked;
    StepShape(s, threads, t, s');
    assert s.pc[u].InCs() <==> s.cs == Some(u);
    assert s.pc[t].InCs() <==> s.cs == Some(t);
  }

  // What a thread does to m: take it when free, or let it go.
  lemma OwnMutex(s: State, t: Thread, s': State)
    requires t in s.pc && t in s.sem && Step(s, t, s')
    requires (s.pc[t].HoldsM() ==> s.m == Some(t)) && (s.m == Some(t) ==> !s.pc[t].WSleep? && !s.pc[t].WRelock?)
    ensures t in s'.pc && (s'.pc[t].HoldsM() ==> s'.m == Some(t))
    ensures s'.m == Some(t) ==> !s'.pc[t].WSleep? && !s'.pc[t].WRelock?
    ensures s'.m == s.m || (s.m == None && s'.m == Some(t)) || (s.m == Some(t) && s'.m == None)
  {
    match s.pc[t] {
      case Outside => case WEnter => case WLink => case WHead => case WLeave => case WUnlock => case WSleep => case WRelock =>
      case SEnter => case SRelease => case SUnlink => case SLeave =>
      case BEnter => case BStart => case BLoop(None) => case BLoop(Some(w)) => case BNext(w) => case BLeave =>
    }
  }

  lemma StepMutex(s: State, threads: set<Thread>, t: Thread, s': State)
    requires Shaped(s, threads) && MutexHeld(s, threads) && t in threads && Step(s, t, s')
    ensures Shaped(s', threads) && MutexHeld(s', threads)
  {
    hide Step;
    StepShape(s, threads, t, s');
    OwnMutex(s, t, s');
  }

  /** Every step of every thread keeps the invariant, and moves the queue as the operations promise. */
  lemma StepKeeps(s: State, a: Queue, threads: set<Thread>, t: Thread, s': State)
    requires Inv(s, a, threads) && t in threads && Step(s, t, s')
    ensures Inv(s', Moved(s, t, a), threads)
  {
    hide Accounted, Linked, Exclusive, MutexHeld, Step, Moved;
    StepLinked(s, a, threads, t, s');
    StepAccounted(s, a, threads, t, s');
    StepExclusive(s, a, threads, t, s');
    StepMutex(s, threads, t, s');
  }

  // ----- whole runs

  predicate Init(s: State, threads: set<Thread>) {
    && Shaped(s, threads) && s.waiters == None && s.cs == None && (s.m.Some? ==> s.m.value in threads)
    && forall t | t in threads :: s.sem[t] == 0 && s.pc[t] == Outside
  }

  /** A run: thread ts[i] takes the state from ss[i] to ss[i + 1]. */
  predicate Run(ss: seq<State>, ts: seq<Thread>, threads: set<Thread>) {
    && |ss| == |ts| + 1 && Init(ss[0], threads)
    && forall i | 0 <= i < |ts| :: ts[i] in threads && Shaped(ss[i], threads) && Step(ss[i], ts[i], ss[i + 1])
  }

  // What the run has made of the queue after n steps.
  function QueueAfter(ss: seq<State>, ts: seq<Thread>, threads: set<Thread>, n: nat): Queue
    requires Run(ss, ts, threads) && n <= |ts|
  {
    if n == 0 then Queue([], 0) else Moved(ss[n - 1], ts[n - 1], QueueAfter(ss, ts, threads, n - 1))
  }

  lemma InitInv(s: State, threads: set<Thread>)
    requires Init(s, threads)
    ensures Inv(s, Queue([], 0), threads)
  {
    forall t | t in threads
      ensures !Unsignalled(Queue([], 0), t)
    {
    }
  }

  /** The invariant holds throughout every run, of any number of threads. */
  lemma {:induction false} RunKeeps(ss: seq<State>, ts: seq<Thread>, threads: set<Thread>, n: nat)
    requires Run(ss, ts, threads) && n <= |ts|
    ensures Inv(ss[n], QueueAfter(ss, ts, threads, n), threads)
  {
    hide Inv, Step, Moved, Init, Shaped;
    if n == 0 {
      InitInv(ss[0], threads);
    } else {
      RunKeeps(ss, ts, threads, n - 1);
      RunStep(ss, ts, threads, n - 1);
      StepKeeps(ss[n - 1], QueueAfter(ss, ts, threads, n - 1), threads, ts[n - 1], ss[n]);
    }
  }

  lemma RunStep(ss: seq<State>, ts: seq<Thread>, threads: set<Thread>, i: nat)
    requires Run(ss, ts, threads) && i < |ts|
    ensures ts[i] in threads && Shaped(ss[i], threads) && Step(ss[i], ts[i], ss[i + 1])
  {
    hide Step, Init;
  }

  /** No semaphore ever goes above one, and one that is up belongs to a thread that was taken off the list and has not
      resumed; a thread that waits with its semaphore down is on the list, and has not been passed over. */
  lemma NoLostWakeup(ss: seq<State>, ts: seq<Thread>, threads: set<Thread>, n: nat, t: Thread)
    requires Run(ss, ts, threads) && n <= |ts| && t in threads
    ensures Shaped(ss[n], threads) && ss[n].sem[t] <= 1
    ensures var a := QueueAfter(ss, ts, threads, n);
            && (ss[n].sem[t] == 1 <==> ss[n].pc[t].Waiting() && !Unsignalled(a, t))
            && (ss[n].pc[t].Waiting() && ss[n].sem[t] == 0 <==> Unsignalled(a, t))
  {
    hide Unsignalled, Linked, Exclusive, MutexHeld, Step, QueueAfter;
    RunKeeps(ss, ts, threads, n);
  }

  /** A wakeup stays until its thread takes it. */
  lemma WakeupStays(s: State, a: Queue, threads: set<Thread>, t: Thread, u: Thread, s': State)
    requires Inv(s, a, threads) && t in threads && u in threads && u != t && Step(s, u, s') && s.sem[t] == 1
    ensures Inv(s', Moved(s, u, a), threads) && s'.sem[t] == 1
  {
    hide Unsignalled, Linked, Exclusive, MutexHeld, Step, Moved;
    StepKeeps(s, a, threads, u, s');
    StepShape(s, threads, u, s');
    RaisedOnly(s, threads, t, u, s');
  }

  // Another thread's step does not take a semaphore down.
  lemma RaisedOnly(s: State, threads: set<Thread>, t: Thread, u: Thread, s': State)
    requires Shaped(s, threads) && t in threads && u in threads && u != t && Step(s, u, s')
    ensures Shaped(s', threads) && s'.sem[t] >= s.sem[t]
  {
  }

  /** While a thread is in the critical section the others leave the queue alone. */
  lemma QueueStable(s: State, a: Queue, threads: set<Thread>, t: Thread, u: Thread, s': State)
    requires Inv(s, a, threads) && t in threads && u in threads && u != t && s.cs == Some(t) && Step(s, u, s')
    ensures Moved(s, u, a) == a && s'.cs == Some(t)
  {
    hide Accounted, Linked, MutexHeld;
    CsKept(s, a, threads, u);
  }

  /** xcondition_signal wakes exactly the newest waiter, or nobody if there is none. */
  lemma SignalNewest(s: State, a: Queue, threads: set<Thread>, t: Thread, s': State)
    requires Inv(s, a, threads) && t in threads && s.pc[t].SRelease? && Step(s, t, s')
    ensures Shaped(s', threads) && a.done == 0
    ensures a.q == [] ==> s'.sem == s.sem && s'.pc[t].SLeave? && Moved(s, t, a) == a
    ensures a.q != [] ==> && a.q[0] in threads && s.sem[a.q[0]] == 0 && s'.sem == s.sem[a.q[0] := 1]
                          && s'.pc[t].SUnlink? && Moved(s, t, a) == Queue(a.q, 1)
  {
    hide MutexHeld, Exclusive, Accounted, Unsignalled;
    CsKept(s, a, threads, t);
    StepShape(s, threads, t, s');
    if a.q != [] { WaiterDown(s, a, threads, 0); }
  }

  // A thread on the list and not signalled has its semaphore down.
  lemma WaiterDown(s: State, a: Queue, threads: set<Thread>, i: nat)
    requires Inv(s, a, threads) && a.done <= i < |a.q|
    ensures a.q[i] in threads && s.sem[a.q[i]] == 0 && s.pc[a.q[i]].Waiting()
  {
    hide MutexHeld, Exclusive;
    assert Unsignalled(a, a.q[i]);
  }

  /** ... and takes it off the list. */
  lemma SignalTakes(s: State, a: Queue, threads: set<Thread>, t: Thread, s': State)
    requires Inv(s, a, threads) && t in threads && s.pc[t].SUnlink? && Step(s, t, s')
    ensures Moved(s, t, a) == Queue(a.q[1..], 0) && s'.sem == s.sem
  {
    hide Accounted, MutexHeld;
    CsKept(s, a, threads, t);
  }

  /** xcondition_broadcast has raised the semaphore of every waiter when it clears the list. */
  lemma BroadcastAll(s: State, a: Queue, threads: set<Thread>, t: Thread, s': State)
    requires Inv(s, a, threads) && t in threads && s.pc[t] == BLoop(None) && Step(s, t, s')
    ensures a.done == |a.q| && Moved(s, t, a) == Queue([], 0) && s'.waiters == None
    ensures forall u | u in threads && s.pc[u].Waiting() :: s.sem[u] == 1
  {
    hide MutexHeld, Linked;
    CsKept(s, a, threads, t);
    forall u | u in threads { AllSignalled(a, u); }
  }

  // ----- whole operations in a run

  // What a signal that found a0 has made of the queue, by where it is; it is in the critical section.
  predicate Signalling(pc: Pc, a0: Queue, a: Queue) {
    match pc
    case SRelease => a == a0 && a0.done == 0
    case SUnlink => a0.q != [] && a == Queue(a0.q, 1)
    case SLeave => a == Queue(if a0.q == [] then [] else a0.q[1..], 0)
    case _ => false
  }

  // The same for a broadcast.
  predicate Broadcasting(pc: Pc, a0: Queue, a: Queue) {
    match pc
    case BStart => a == a0 && a0.done == 0
    case BLoop(_) | BNext(_) => a.q == a0.q
    case BLeave => a == Queue([], 0)
    case _ => false
  }

  lemma OperationStep(s: State, a0: Queue, a: Queue, threads: set<Thread>, t: Thread, u: Thread, s': State)
    requires Inv(s, a, threads) && t in threads && u in threads && Step(s, u, s')
    requires s.pc[t].InCs() && Shaped(s', threads) && s'.pc[t].InCs()
    ensures Signalling(s.pc[t], a0, a) ==> Signalling(s'.pc[t], a0, Moved(s, u, a))
    ensures Broadcasting(s.pc[t], a0, a) ==> Broadcasting(s'.pc[t], a0, Moved(s, u, a))
  {
    hide Accounted, Linked, MutexHeld, Exclusive;
    CsKept(s, a, threads, t);
    if u != t {
      QueueStable(s, a, threads, t, u, s');
      StepShape(s, threads, u, s');
    } else if s.pc[t].SRelease? {
      SignalNewest(s, a, threads, t, s');
    } else if s.pc[t].SUnlink? {
      SignalTakes(s, a, threads, t, s');
    } else {
      BroadcastStep(s, a, threads, t, s');
    }
  }

  lemma BroadcastStep(s: State, a: Queue, threads: set<Thread>, t: Thread, s': State)
    requires Shaped(s, threads) && t in threads && Step(s, t, s')
    ensures s.pc[t].BStart? ==> t in s'.pc && s'.pc[t].BLoop? && Moved(s, t, a) == a
    ensures s.pc[t].BNext? ==> t in s'.pc && s'.pc[t].BLoop? && Moved(s, t, a) == a
    ensures s.pc[t].BLoop? && s.pc[t].at.Some? ==> t in s'.pc && s'.pc[t].BNext? && Moved(s, t, a).q == a.q
    ensures s.pc[t].BLoop? && s.pc[t].at.None? ==> t in s'.pc && s'.pc[t].BLeave? && Moved(s, t, a) == Queue([], 0)
    ensures s.pc[t].BLeave? || s.pc[t].SLeave? ==> t in s'.pc && s'.pc[t] == Outside
  {
  }

  // t stays in the critical section from state i to state k.
  predicate Stays(ss: seq<State>, t: Thread, i: nat, k: nat)
    requires i <= k < |ss|
  {
    forall j | i <= j <= k :: t in ss[j].pc && ss[j].pc[t].InCs()
  }

  lemma RunLength(ss: seq<State>, ts: seq<Thread>, threads: set<Thread>)
    requires Run(ss, ts, threads)
    ensures |ss| == |ts| + 1
  {
  }

  lemma {:induction false} OperationRun(ss: seq<State>, ts: seq<Thread>, threads: set<Thread>, t: Thread, i: nat, k: nat)
    requires Run(ss, ts, threads) && i <= k <= |ts| && t in threads && Stays(ss, t, i, k)
    ensures var a := QueueAfter(ss, ts, threads, i);
            && t in ss[i].pc && t in ss[k].pc
            && (ss[i].pc[t].SRelease? ==> Signalling(ss[k].pc[t], a, QueueAfter(ss, ts, threads, k)))
            && (ss[i].pc[t].BStart? ==> Broadcasting(ss[k].pc[t], a, QueueAfter(ss, ts, threads, k)))
    decreases k
  {
    hide Inv, Step, Moved, Init, Signalling, Broadcasting, Run;
    RunLength(ss, ts, threads);
    var a := QueueAfter(ss, ts, threads, i);
    assert t in ss[i].pc && t in ss[k].pc;
    RunKeeps(ss, ts, threads, k);
    if i == k {
      OperationStarts(ss[i], a, threads, t);
    } else {
      OperationRun(ss, ts, threads, t, i, k - 1);
      RunKeeps(ss, ts, threads, k - 1);
      RunStep(ss, ts, threads, k - 1);
      ShapedInv(ss[k], QueueAfter(ss, ts, threads, k), threads);
      OperationStep(ss[k - 1], a, QueueAfter(ss, ts, threads, k - 1), threads, t, ts[k - 1], ss[k]);
      QueueNext(ss, ts, threads, k);
    }
  }

  lemma QueueNext(ss: seq<State>, ts: seq<Thread>, threads: set<Thread>, k: nat)
    requires Run(ss, ts, threads) && 0 < k <= |ts|
    ensures ts[k - 1] in ss[k - 1].pc
    ensures QueueAfter(ss, ts, threads, k) == Moved(ss[k - 1], ts[k - 1], QueueAfter(ss, ts, threads, k - 1))
  {
    hide Step;
    assert Shaped(ss[k - 1], threads);
  }

  lemma ShapedInv(s: State, a: Queue, threads: set<Thread>)
    requires Inv(s, a, threads)
    ensures Shaped(s, threads)
  {
  }

  lemma OperationStarts(s: State, a: Queue, threads: set<Thread>, t: Thread)
    requires Inv(s, a, threads) && t in threads && t in s.pc
    ensures s.pc[t].SRelease? ==> Signalling(s.pc[t], a, a)
    ensures s.pc[t].BStart? ==> Broadcasting(s.pc[t], a, a)
  {
    hide Accounted, MutexHeld, Linked;
    CsKept(s, a, threads, t);
  }

  /** In every run, while a thread is in xcondition_signal's critical section, from state i to state k, the list loses
      exactly its newest waiter, or nothing if it is empty, whatever the other threads do. */
  lemma SignalInRun(ss: seq<State>, ts: seq<Thread>, threads: set<Thread>, t: Thread, i: nat, k: nat)
    requires Run(ss, ts, threads) && i <= k <= |ts| && t in threads && Stays(ss, t, i, k)
    requires ss[i].pc[t].SRelease? && ss[k].pc[t].SLeave?
    ensures var q := QueueAfter(ss, ts, threads, i).q;
            QueueAfter(ss, ts, threads, k) == Queue(if q == [] then [] else q[1..], 0)
  {
    hide Run, QueueAfter;
    OperationRun(ss, ts, threads, t, i, k);
  }

  /** ... and in xcondition_broadcast's it loses all of them: then no thread waits with its semaphore down. */
  lemma BroadcastInRun(ss: seq<State>, ts: seq<Thread>, threads: set<Thread>, t: Thread, i: nat, k: nat)
    requires Run(ss, ts, threads) && i <= k <= |ts| && t in threads && Stays(ss, t, i, k)
    requires ss[i].pc[t].BStart? && ss[k].pc[t].BLeave?
    ensures QueueAfter(ss, ts, threads, k) == Queue([], 0) && Shaped(ss[k], threads)
    ensures forall u | u in threads && ss[k].pc[u].Waiting() :: ss[k].sem[u] == 1
  {
    hide Run, QueueAfter;
    RunLength(ss, ts, threads);
    OperationRun(ss, ts, threads, t, i, k);
    forall u | u in threads
      ensures Shaped(ss[k], threads) && (ss[k].pc[u].Waiting() ==> ss[k].sem[u] == 1)
    {
      NoLostWakeup(ss, ts, threads, k, u);
    }
    RunKeeps(ss, ts, threads, k);
  }

  /** In every run a thread in xcondition_wait holds m until it is on the list, and holds it again when it returns. */
  lemma WaitHoldsM(ss: seq<State>, ts: seq<Thread>, threads: set<Thread>, n: nat, t: Thread)
    requires Run(ss, ts, threads) && n <= |ts| && t in threads
    ensures Shaped(ss[n], threads) && (ss[n].pc[t].HoldsM() ==> ss[n].m == Some(t))
    ensures n < |ts| && ts[n] == t && ss[n].pc[t].WRelock? ==>
              t in ss[n + 1].pc && ss[n + 1].pc[t] == Outside && ss[n + 1].m == Some(t)
    ensures n < |ts| && ts[n] == t && ss[n].pc[t].WUnlock? ==>
              t in ss[n + 1].pc && ss[n + 1].pc[t].Waiting()
              && (ss[n].sem[t] == 1 || Unsignalled(QueueAfter(ss, ts, threads, n), t))
  {
    hide Run, QueueAfter, Linked, Exclusive, Unsignalled;
    RunKeeps(ss, ts, threads, n);
    NoLostWakeup(ss, ts, threads, n, t);
    if n < |ts| { RunStep(ss, ts, threads, n); }
  }

  // ----- who can go on

  /** What holds a thread up: an owner of the critical section at its entry, a wakeup that has not come, an owner of m. */
  predicate CanStep(s: State, a: Queue, t: Thread)
    requires t in s.pc
  {
    match s.pc[t]
    case WEnter | SEnter | BEnter => s.cs == None
    case WSleep => !Unsignalled(a, t)
    case WRelock => s.m == None
    case _ => true
  }

  // The step of a thread that has one; outside it starts a signal.
  function StepOf(s: State, t: Thread): State
    requires t in s.pc && t in s.sem && t in s.next
    requires s.pc[t].SRelease? && s.waiters.Some? ==> s.waiters.value in s.sem
    requires s.pc[t].SUnlink? ==> s.waiters.Some? && s.waiters.value in s.next
    requires s.pc[t].BLoop? && s.pc[t].at.Some? ==> s.pc[t].at.value in s.sem
    requires s.pc[t].BNext? ==> s.pc[t].released in s.next
    requires s.pc[t].WSleep? ==> s.sem[t] > 0
  {
    match s.pc[t]
    case Outside => Goto(s, t, SEnter)
    case WEnter => Goto(s, t, WLink).(cs := Some(t))
    case WLink => Goto(s, t, WHead).(next := s.next[t := s.waiters])
    case WHead => Goto(s, t, WLeave).(waiters := Some(t))
    case WLeave => Goto(s, t, WUnlock).(cs := None)
    case WUnlock => Goto(s, t, WSleep).(m := None)
    case WSleep => Goto(s, t, WRelock).(sem := s.sem[t := s.sem[t] - 1])
    case WRelock => Goto(s, t, Outside).(m := Some(t))
    case SEnter => Goto(s, t, SRelease).(cs := Some(t))
    case SRelease => if s.waiters == None then Goto(s, t, SLeave)
                     else Goto(s, t, SUnlink).(sem := Released(s.sem, s.waiters.value))
    case SUnlink => Goto(s, t, SLeave).(waiters := s.next[s.waiters.value])
    case SLeave => Goto(s, t, Outside).(cs := None)
    case BEnter => Goto(s, t, BStart).(cs := Some(t))
    case BStart => Goto(s, t, BLoop(s.waiters))
    case BLoop(None) => Goto(s, t, BLeave).(waiters := None)
    case BLoop(Some(w)) => Goto(s, t, BNext(w)).(sem := Released(s.sem, w))
    case BNext(w) => Goto(s, t, BLoop(s.next[w]))
    case BLeave => Goto(s, t, Outside).(cs := None)
  }

  // In a reachable state the list and the semaphores are there when a statement needs them.
  lemma StepThere(s: State, a: Queue, threads: set<Thread>, t: Thread)
    requires Inv(s, a, threads) && t in threads
    ensures t in s.pc && t in s.sem && t in s.next
    ensures s.pc[t].SRelease? && s.waiters.Some? ==> s.waiters.value in s.sem
    ensures s.pc[t].SUnlink? ==> s.waiters.Some? && s.waiters.value in s.next
    ensures s.pc[t].BLoop? && s.pc[t].at.Some? ==> s.pc[t].at.value in s.sem
    ensures s.pc[t].BNext? ==> s.pc[t].released in s.next
    ensures s.pc[t].WSleep? ==> s.sem[t] == if Unsignalled(a, t) then 0 else 1
  {
    hide MutexHeld, Unsignalled, Step;
    CsKept(s, a, threads, t);
  }

  /** At every statement, blocking ones included, a thread has a step exactly when nothing of that holds it up. */
  lemma Enabled(s: State, a: Queue, threads: set<Thread>, t: Thread)
    requires Inv(s, a, threads) && t in threads
    ensures t in s.pc && t in s.sem && ((exists s' :: Step(s, t, s')) <==> CanStep(s, a, t))
  {
    hide Inv, Unsignalled;
    StepThere(s, a, threads, t);
    if CanStep(s, a, t) { assert Step(s, t, StepOf(s, t)); }
  }

  // A thread that keeps things going, if t does not wait for a signal.
  function Mover(s: State, t: Thread): Thread
    requires t in s.pc
  {
    if s.cs.Some? then s.cs.value else if s.pc[t].WRelock? && s.m.Some? then s.m.value else t
  }

  lemma MoverMoves(s: State, a: Queue, threads: set<Thread>, t: Thread)
    requires Inv(s, a, threads) && t in threads && t in s.pc && !(s.pc[t].WSleep? && Unsignalled(a, t))
    ensures Mover(s, t) in threads && Mover(s, t) in s.pc && CanStep(s, a, Mover(s, t))
  {
    hide Unsignalled, Accounted, Linked;
    CsKept(s, a, threads, t);
    if Mover(s, t) in threads { CsKept(s, a, threads, Mover(s, t)); }
  }

  /** No step is left to any thread exactly when all of them wait and none has been signalled. */
  lemma Stuck(s: State, a: Queue, threads: set<Thread>)
    requires Inv(s, a, threads)
    ensures (forall t | t in threads :: t in s.pc && t in s.sem && !exists s' :: Step(s, t, s'))
            <==> forall t | t in threads :: t in s.pc && s.pc[t].WSleep? && Unsignalled(a, t)
  {
    hide Unsignalled, Accounted, Linked, Exclusive, MutexHeld, Mover, Step;
    forall t | t in threads { Enabled(s, a, threads, t); }
    forall t | t in threads && t in s.pc && !(s.pc[t].WSleep? && Unsignalled(a, t))
      ensures exists u :: u in threads && u in s.pc && CanStep(s, a, u)
    {
      MoverMoves(s, a, threads, t);
    }
  }

  // ----- every signalled waiter can be brought to return

  ghost predicate Path(ss: seq<State>, ts: seq<Thread>, threads: set<Thread>) {
    |ss| == |ts| + 1 && forall i | 0 <= i < |ts| :: ShapedStep(ss[i], ts[i], ss[i + 1], threads)
  }

  predicate ShapedStep(s: State, t: Thread, s': State, threads: set<Thread>) {
    t in threads && Shaped(s, threads) && Step(s, t, s')
  }

  /** Some continuation leads from s to s'. */
  ghost predicate Leads(s: State, s': State, threads: set<Thread>) {
    exists ss, ts :: Path(ss, ts, threads) && ss[0] == s && ss[|ts|] == s'
  }

  lemma Stay(s: State, threads: set<Thread>)
    ensures Leads(s, s, threads)
  {
    assert Path([s], [], threads);
  }

  lemma GoOn(s: State, t: Thread, mid: State, s': State, threads: set<Thread>)
    requires ShapedStep(s, t, mid, threads) && Leads(mid, s', threads)
    ensures Leads(s, s', threads)
  {
    hide ShapedStep;
    var ss, ts :| Path(ss, ts, threads) && ss[0] == mid && ss[|ts|] == s';
    PathCons(s, t, ss, ts, threads);
    assert ([s] + ss)[|[t] + ts|] == s';
  }

  lemma PathCons(s: State, t: Thread, ss: seq<State>, ts: seq<Thread>, threads: set<Thread>)
    requires Path(ss, ts, threads) && ShapedStep(s, t, ss[0], threads)
    ensures Path([s] + ss, [t] + ts, threads)
  {
    hide ShapedStep;
    var ss', ts' := [s] + ss, [t] + ts;
    forall i | 0 <= i < |ts'|
      ensures ShapedStep(ss'[i], ts'[i], ss'[i + 1], threads)
    {
      if i > 0 { assert ts'[i] == ts[i - 1] && ss'[i] == ss[i - 1] && ss'[i + 1] == ss[i]; }
    }
  }

  lemma Onward(s: State, mid: State, s': State, threads: set<Thread>)
    requires Leads(s, mid, threads) && Leads(mid, s', threads)
    ensures Leads(s, s', threads)
  {
    var ss, ts :| Path(ss, ts, threads) && ss[0] == s && ss[|ts|] == mid;
    Along(ss, ts, s', threads);
  }

  lemma {:induction false} Along(ss: seq<State>, ts: seq<Thread>, s': State, threads: set<Thread>)
    requires Path(ss, ts, threads) && Leads(ss[|ts|], s', threads)
    ensures Leads(ss[0], s', threads)
    decreases |ts|
  {
    hide ShapedStep, Leads;
    if ts != [] {
      Along(ss[1..], ts[1..], s', threads);
      GoOn(ss[0], ts[0], ss[1], s', threads);
    }
  }

  // How many steps the owner of the critical section has to go in it.
  function Left(s: State, a: Queue, u: Thread): int
    requires u in s.pc
  {
    match s.pc[u]
    case WLink | SRelease => 3
    case WHead | SUnlink => 2
    case BStart => 2 * |a.q| + 3
    case BLoop(_) => 2 * (|a.q| - a.done) + 2
    case BNext(_) => 2 * (|a.q| - a.done) + 3
    case _ => 1
  }

  // Where it comes out.
  function Exit(pc: Pc): Pc { if pc.WLink? || pc.WHead? || pc.WLeave? then WUnlock else Outside }

  // t has its wakeup.
  predicate Woken(s: State, t: Thread) { t in s.pc && t in s.sem && s.pc[t].WSleep? && s.sem[t] == 1 }

  // One step of another thread leaves t its wakeup.
  lemma StepWoken(s: State, a: Queue, threads: set<Thread>, t: Thread, u: Thread)
    requires Inv(s, a, threads) && t in threads && u in threads && u != t && Woken(s, t)
    requires u in s.pc && CanStep(s, a, u)
    ensures u in s.sem && u in s.next && StepOf.requires(s, u) && ShapedStep(s, u, StepOf(s, u), threads)
    ensures Inv(StepOf(s, u), Moved(s, u, a), threads) && Woken(StepOf(s, u), t)
    ensures forall x | x in threads && x != u :: x in s.pc && x in StepOf(s, u).pc && StepOf(s, u).pc[x] == s.pc[x]
  {
    hide Accounted, Linked, Exclusive, MutexHeld, Moved, Unsignalled;
    StepThere(s, a, threads, u);
    assert Step(s, u, StepOf(s, u));
    hide Step, StepOf;
    WakeupStays(s, a, threads, t, u, StepOf(s, u));
    StepShape(s, threads, u, StepOf(s, u));
  }

  // The step of the owner of the critical section takes it nearer to its end.
  lemma StepNearer(s: State, a: Queue, threads: set<Thread>, u: Thread)
    requires Inv(s, a, threads) && s.cs == Some(u) && u in threads && u in s.pc
    ensures StepOf.requires(s, u) && CanStep(s, a, u) && s.pc[u].InCs() && 0 < Left(s, a, u)
    ensures var s' := StepOf(s, u);
            && s'.m == s.m && u in s'.pc
            && if s'.cs == None then s'.pc[u] == Exit(s.pc[u])
               else s'.cs == Some(u) && Exit(s'.pc[u]) == Exit(s.pc[u]) && Left(s', Moved(s, u, a), u) < Left(s, a, u)
  {
    CsKept(s, a, threads, u);
    StepThere(s, a, threads, u);
    hide Inv, Unsignalled, Step;
    if s.pc[u].BStart? || s.pc[u].BLoop? || s.pc[u].BNext? || s.pc[u].BLeave? {
      LoopNearer(s, a, u);
    } else {
      BlockNearer(s, a, u);
    }
  }

  lemma BlockNearer(s: State, a: Queue, u: Thread)
    requires u in s.pc && u in s.sem && u in s.next && StepOf.requires(s, u) && s.cs == Some(u) && s.pc[u].InCs()
    requires !s.pc[u].BStart? && !s.pc[u].BLoop? && !s.pc[u].BNext? && !s.pc[u].BLeave?
    ensures var s' := StepOf(s, u);
            && s'.m == s.m && u in s'.pc
            && if s'.cs == None then s'.pc[u] == Exit(s.pc[u])
               else s'.cs == Some(u) && Exit(s'.pc[u]) == Exit(s.pc[u]) && Left(s', Moved(s, u, a), u) < Left(s, a, u)
  {
  }

  lemma LoopNearer(s: State, a: Queue, u: Thread)
    requires u in s.pc && u in s.sem && u in s.next && StepOf.requires(s, u) && s.cs == Some(u) && InStep(s, a, u)
    requires a.done <= |a.q| && (s.pc[u].BStart? || s.pc[u].BLoop? || s.pc[u].BNext? || s.pc[u].BLeave?)
    ensures 0 < Left(s, a, u)
    ensures var s' := StepOf(s, u);
            && s'.m == s.m && u in s'.pc
            && if s'.cs == None then s'.pc[u] == Exit(s.pc[u])
               else s'.cs == Some(u) && Exit(s'.pc[u]) == Exit(s.pc[u]) && Left(s', Moved(s, u, a), u) < Left(s, a, u)
  {
  }

  // The owner of the critical section leaves it.
  lemma {:induction false} FreeCs(s: State, a: Queue, threads: set<Thread>, t: Thread, u: Thread) returns (s': State, a': Queue)
    requires Inv(s, a, threads) && t in threads && u in threads && u in s.pc && Woken(s, t) && s.cs == Some(u)
    ensures Leads(s, s', threads) && Inv(s', a', threads) && Woken(s', t) && s'.cs == None && s'.m == s.m
    ensures u in s'.pc && s'.pc[u] == Exit(s.pc[u])
    ensures forall x | x in threads && x != u :: x in s.pc && x in s'.pc && s'.pc[x] == s.pc[x]
    decreases Left(s, a, u)
  {
    hide Inv, Step, StepOf, Moved, Left, Exit, Woken, Leads;
    StepNearer(s, a, threads, u);
    assert u != t by { NotInside(s, t); }
    StepWoken(s, a, threads, t, u);
    var mid := StepOf(s, u);
    if mid.cs == None {
      Stay(mid, threads);
      s', a' := mid, Moved(s, u, a);
    } else {
      s', a' := FreeCs(mid, Moved(s, u, a), threads, t, u);
    }
    GoOn(s, u, mid, s', threads);
  }

  lemma NotInside(s: State, t: Thread)
    requires Woken(s, t)
    ensures !s.pc[t].InCs()
  {
  }

  // Entering the critical section.
  lemma Entered(s: State, h: Thread)
    requires h in s.pc && h in s.sem && h in s.next && StepOf.requires(s, h)
    requires s.pc[h] in {WEnter, SEnter, BEnter}
    ensures var mid := StepOf(s, h);
            mid.cs == Some(h) && mid.m == s.m && h in mid.pc && (Exit(mid.pc[h]) == Outside || Exit(mid.pc[h]).WUnlock?)
  {
  }

  // Whoever holds m, with the critical section free, gets to where it can let go of it.
  lemma Unlockable(s: State, a: Queue, threads: set<Thread>, t: Thread, h: Thread) returns (s': State, a': Queue)
    requires Inv(s, a, threads) && t in threads && Woken(s, t) && s.cs == None && s.m == Some(h) && h in threads && h in s.pc
    ensures Leads(s, s', threads) && Inv(s', a', threads) && Woken(s', t) && s'.m == Some(h)
    ensures h in s'.pc && (s'.pc[h] == Outside || s'.pc[h].WUnlock?) && h != t
  {
    hide Inv, Woken, Leads, Step, StepOf, Moved, Exit, CanStep, ShapedStep;
    HolderAwake(s, a, threads, t, h);
    if s.pc[h] == Outside || s.pc[h].WUnlock? {
      Stay(s, threads);
      s', a' := s, a;
    } else {
      StepWoken(s, a, threads, t, h);
      Entered(s, h);
      var mid := StepOf(s, h);
      s', a' := FreeCs(mid, Moved(s, h, a), threads, t, h);
      GoOn(s, h, mid, s', threads);
    }
  }

  lemma HolderAwake(s: State, a: Queue, threads: set<Thread>, t: Thread, h: Thread)
    requires Inv(s, a, threads) && t in threads && Woken(s, t) && s.cs == None && s.m == Some(h)
    ensures h in threads && h in s.pc && h != t && CanStep(s, a, h)
    ensures s.pc[h] in {Outside, WEnter, WUnlock, SEnter, BEnter}
  {
    hide Accounted, Linked, Unsignalled;
    CsKept(s, a, threads, h);
  }

  // m is let go.
  lemma FreeM(s: State, a: Queue, threads: set<Thread>, t: Thread, h: Thread) returns (s': State, a': Queue)
    requires Inv(s, a, threads) && t in threads && h in threads && h in s.pc && h != t && Woken(s, t) && s.m == Some(h)
    requires s.pc[h] == Outside || s.pc[h].WUnlock?
    ensures Leads(s, s', threads) && Inv(s', a', threads) && Woken(s', t) && s'.m == None
  {
    s', a' := if s.pc[h] == Outside then s.(m := None) else Goto(s, h, WSleep).(m := None), Moved(s, h, a);
    StepThere(s, a, threads, h);
    assert Step(s, h, s') && Shaped(s, threads);
    StepKeeps(s, a, threads, h, s');
    hide Inv, Step, Moved, Unsignalled, Leads;
    Stay(s', threads);
    GoOn(s, h, s', s', threads);
  }

  // A woken thread passes its semaphore.
  lemma Wakes(s: State, a: Queue, threads: set<Thread>, t: Thread)
    requires Inv(s, a, threads) && t in threads && Woken(s, t)
    ensures t in s.next && StepOf.requires(s, t) && ShapedStep(s, t, StepOf(s, t), threads)
    ensures t in StepOf(s, t).pc && StepOf(s, t).pc[t].WRelock? && StepOf(s, t).m == s.m
    ensures Inv(StepOf(s, t), Moved(s, t, a), threads)
  {
    hide Accounted, Linked, Exclusive, MutexHeld, Moved, Unsignalled;
    StepThere(s, a, threads, t);
    assert Step(s, t, StepOf(s, t));
    hide Step, StepOf;
    StepKeeps(s, a, threads, t, StepOf(s, t));
  }

  // Behind its semaphore a thread takes m when m is free, and is back.
  lemma Relocks(s: State, a: Queue, threads: set<Thread>, t: Thread)
    requires Inv(s, a, threads) && t in threads && t in s.pc && s.pc[t].WRelock? && s.m == None
    ensures t in s.sem && t in s.next && StepOf.requires(s, t) && ShapedStep(s, t, StepOf(s, t), threads)
    ensures t in StepOf(s, t).pc && StepOf(s, t).pc[t] == Outside && StepOf(s, t).m == Some(t)
  {
    hide Accounted, Linked, Exclusive, MutexHeld, Unsignalled;
    StepThere(s, a, threads, t);
    assert Step(s, t, StepOf(s, t));
  }

  // A woken thread returns when m is free.
  lemma Returns(s: State, a: Queue, threads: set<Thread>, t: Thread) returns (s': State)
    requires Inv(s, a, threads) && t in threads && Woken(s, t) && s.m == None
    ensures Leads(s, s', threads) && t in s'.pc && s'.pc[t] == Outside && s'.m == Some(t)
  {
    hide Inv, Step, StepOf, Moved, Woken, Leads, ShapedStep;
    Wakes(s, a, threads, t);
    var mid := StepOf(s, t);
    Relocks(mid, Moved(s, t, a), threads, t);
    s' := StepOf(mid, t);
    Stay(s', threads);
    GoOn(mid, t, s', s', threads);
    GoOn(s, t, mid, s', threads);
  }

  /** Whatever the others are doing, from every reachable state in which a waiting thread has been signalled some
      continuation brings it back from xcondition_wait with m. */
  lemma WakeupTaken(ss: seq<State>, ts: seq<Thread>, threads: set<Thread>, n: nat, t: Thread)
    requires Run(ss, ts, threads) && n <= |ts| && t in threads
    requires t in ss[n].pc && ss[n].pc[t].WSleep? && !Unsignalled(QueueAfter(ss, ts, threads, n), t)
    ensures exists s' :: Leads(ss[n], s', threads) && t in s'.pc && s'.pc[t] == Outside && s'.m == Some(t)
  {
    RunLength(ss, ts, threads);
    hide Run, QueueAfter, Unsignalled, Inv, Step, Leads;
    RunKeeps(ss, ts, threads, n);
    NoLostWakeup(ss, ts, threads, n, t);
    var s' := SignalledReturns(ss[n], QueueAfter(ss, ts, threads, n), threads, t);
  }

  lemma SignalledReturns(s: State, a: Queue, threads: set<Thread>, t: Thread) returns (s': State)
    requires Inv(s, a, threads) && t in threads && Woken(s, t)
    ensures Leads(s, s', threads) && t in s'.pc && s'.pc[t] == Outside && s'.m == Some(t)
  {
    CsKept(s, a, threads, t);
    hide Inv, Woken, Step, Leads;
    var s1, a1 := s, a;
    Stay(s, threads);
    if s.cs.Some? {
      OwnerKnown(s, a, threads);
      s1, a1 := FreeCs(s, a, threads, t, s.cs.value);
    }
    var s2, a2 := s1, a1;
    Stay(s1, threads);
    if s1.m.Some? {
      var h := s1.m.value;
      HolderAwake(s1, a1, threads, t, h);
      var s3, a3 := Unlockable(s1, a1, threads, t, h);
      s2, a2 := FreeM(s3, a3, threads, t, h);
      Onward(s1, s3, s2, threads);
    }
    s' := Returns(s2, a2, threads, t);
    Onward(s1, s2, s', threads);
    Onward(s, s1, s', threads);
  }

  lemma OwnerKnown(s: State, a: Queue, threads: set<Thread>)
    requires Inv(s, a, threads) && s.cs.Some?
    ensures s.cs.value in threads && s.cs.value in s.pc
  {
    hide Accounted, Linked, MutexHeld;
  }

  /** Nobody is ever stuck in the critical section: its owner can always take a step. */
  lemma OwnerMoves(s: State, a: Queue, threads: set<Thread>, t: Thread)
    requires Inv(s, a, threads) && s.cs == Some(t)
    ensures exists s' :: Step(s, t, s')
  {
    hide Accounted, Linked, MutexHeld, Unsignalled, Step;
    Enabled(s, a, threads, t);
  }
}
