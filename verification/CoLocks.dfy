/**
 * Coroutine mutexes and read-write locks over the scheduler that runs them. Coroutines enter
 * one another and yield back, so they form a stack; a waiter woken by an unlock is entered
 * again when the unlocking coroutine gives up the processor.
 */
module CoLocks {
  import opened Bytes

  datatype Mode = Read | Write

  /** Where a coroutine is. */
  datatype Task =
    | Idle                          // yielded for reasons of its own, anyone may enter it
    | Running                       // on the stack
    | Waiting(mode: Mode)           // in the lock's queue
    | Woken(mode: Mode, waker: nat) // in the wakeup list of `waker`
    | Retrying(mode: Mode)          // entered from a wakeup list, about to look at the lock again
    | Dead

  datatype Hold = Nothing | Reading | Writing

  /**
   * A lock and the coroutines using it. Coroutine 0 is the thread itself. `drains[i]` are the
   * coroutines whose wakeup lists the i-th coroutine on the stack still has to run, innermost last.
   * `resumes[x]` is what `x` has to run when it is entered again: it yields inside the switch back to
   * its caller, and comes out of that switch by running the wakeup list of the caller it had then.
   */
  datatype State = State(
    mutex: bool, tasks: seq<Task>, holds: seq<Hold>, stack: seq<nat>, drains: seq<seq<nat>>, resumes: seq<seq<nat>>,
    wakeup: seq<seq<nat>>, queue: seq<nat>, writer: bool, reader: nat)

  predicate OnStack(t: Task)
  {
    t.Running? || t.Retrying?
  }

  function Readers(holds: seq<Hold>): nat
  {
    if holds == [] then 0 else Readers(holds[1..]) + if holds[0] == Reading then 1 else 0
  }

  // ----- what holds in every reachable state -----

  ghost predicate Shape(s: State)
  {
    && 0 < |s.tasks| == |s.holds| == |s.wakeup| == |s.resumes|
    && 0 < |s.stack| == |s.drains| && s.stack[0] == 0
  }

  predicate Below(lists: seq<seq<nat>>, n: nat)
  {
    forall f, i :: 0 <= f < |lists| && 0 <= i < |lists[f]| ==> lists[f][i] < n
  }

  /** The stack holds exactly the coroutines that run, each once. */
  ghost predicate StackOk(s: State)
    requires Shape(s)
  {
    && NoDuplicates(s.stack)
    && (forall i :: 0 <= i < |s.stack| ==> s.stack[i] < |s.tasks| && OnStack(s.tasks[s.stack[i]]))
    && (forall x :: 0 <= x < |s.tasks| && OnStack(s.tasks[x]) ==> x in s.stack)
    && s.tasks[0] == Running
    && Below(s.drains, |s.tasks|) && Below(s.resumes, |s.tasks|)
  }

  ghost predicate QueueOk(s: State)
    requires Shape(s)
  {
    && NoDuplicates(s.queue)
    && (forall i :: 0 <= i < |s.queue| ==> s.queue[i] < |s.tasks| && s.tasks[s.queue[i]].Waiting?)
    && (forall x :: 0 <= x < |s.tasks| && s.tasks[x].Waiting? ==> x in s.queue)
  }

  ghost predicate InDrains(s: State, c: nat)
  {
    exists f :: 0 <= f < |s.drains| && c in s.drains[f]
  }

  /** Somebody will run the wakeup list of `c`. */
  ghost predicate WillDrain(s: State, c: nat)
  {
    c in s.stack || InDrains(s, c)
  }

  predicate IsWoken(s: State, x: nat, c: nat)
  {
    x < |s.tasks| && s.tasks[x].Woken? && s.tasks[x].waker == c
  }

  ghost predicate WakeupOk(s: State)
    requires Shape(s)
  {
    && (forall c :: 0 <= c < |s.wakeup| ==> NoDuplicates(s.wakeup[c]))
    && (forall c, i :: 0 <= c < |s.wakeup| && 0 <= i < |s.wakeup[c]| ==> IsWoken(s, s.wakeup[c][i], c))
    && (forall x :: 0 <= x < |s.tasks| && s.tasks[x].Woken? ==>
          s.tasks[x].waker < |s.wakeup| && x in s.wakeup[s.tasks[x].waker])
    && (forall c :: 0 <= c < |s.wakeup| && s.wakeup[c] != [] ==> WillDrain(s, c))
    && s.wakeup[0] == []
  }

  /** The lock's fields agree with who holds it, and a writer is alone. */
  ghost predicate LockOk(s: State)
    requires Shape(s)
  {
    && s.reader == Readers(s.holds)
    && (s.writer <==> exists x :: 0 <= x < |s.holds| && s.holds[x] == Writing)
    && (forall x, y :: 0 <= x < y < |s.holds| ==> !(s.holds[x] == Writing && s.holds[y] == Writing))
    && (s.writer ==> s.reader == 0)
    && s.holds[0] == Nothing
    && (forall x :: 0 <= x < |s.tasks| && (s.tasks[x].Waiting? || s.tasks[x].Woken? || s.tasks[x].Retrying?) ==>
          s.holds[x] == Nothing)
    && (s.mutex ==> s.reader == 0 && forall x :: 0 <= x < |s.tasks| && s.tasks[x].Waiting? ==> s.tasks[x].mode == Write)
    && (s.mutex ==> forall x :: 0 <= x < |s.tasks| && (s.tasks[x].Woken? || s.tasks[x].Retrying?) ==> s.tasks[x].mode == Write)
  }

  /** A waiter that has been woken and not yet looked at the lock again. */
  ghost predicate Pending(s: State, x: nat)
  {
    x < |s.tasks| && (s.tasks[x].Woken? || s.tasks[x].Retrying?)
  }

  predicate Free(s: State)
  {
    !s.writer && s.reader == 0
  }

  /** Readers wait only for a writer, and a free lock with waiters has one of them woken. */
  ghost predicate WaitersOk(s: State)
    requires Shape(s) && QueueOk(s)
  {
    && (!s.writer ==> forall i :: 0 <= i < |s.queue| ==> s.tasks[s.queue[i]].mode == Write)
    && (Free(s) && s.queue != [] ==> exists x: nat :: Pending(s, x))
  }

  ghost predicate Inv(s: State)
  {
    Shape(s) && StackOk(s) && QueueOk(s) && WakeupOk(s) && LockOk(s) && WaitersOk(s)
  }

  // ----- steps -----

  function Top(s: State): nat
    requires |s.stack| > 0
  {
    s.stack[|s.stack| - 1]
  }

  /** The stack and its drains with `x` entered by the running coroutine. */
  function Push(s: State, x: nat): State
    requires x < |s.resumes|
  {
    s.(stack := s.stack + [x], drains := s.drains + [s.resumes[x]])
  }

  /** The running coroutine gives up; the one below runs its wakeup list first. */
  function Pop(s: State): State
    requires 1 < |s.stack| == |s.drains| && Top(s) < |s.resumes|
  {
    var n, c := |s.stack|, Top(s);
    s.(stack := s.stack[..n - 1], drains := s.drains[..n - 2] + [s.drains[n - 2] + [c]],
       resumes := s.resumes[c := [s.stack[n - 2]]])
  }

  predicate Available(s: State, m: Mode)
  {
    !s.writer && (m == Write ==> s.reader == 0)
  }

  /** The running coroutine looks at the lock: it takes it, or queues up and yields. */
  function Attempt(s: State, m: Mode): State
    requires Shape(s) && |s.stack| > 1 && Top(s) < |s.tasks|
  {
    var c := Top(s);
    if Available(s, m) then
      s.(tasks := s.tasks[c := Running], holds := s.holds[c := if m == Read then Reading else Writing],
      writer := s.writer || m == Write, reader := if m == Read then s.reader + 1 else s.reader)
    else
      Pop(s.(tasks := s.tasks[c := Waiting(m)], queue := s.queue + [c]))
  }

  /** The first waiter moves to the wakeup list of `c`. */
  function WakeOne(s: State, c: nat): State
    requires Shape(s) && QueueOk(s) && c < |s.wakeup|
  {
    if s.queue == [] then s else
      var x := s.queue[0];
      s.(tasks := s.tasks[x := Woken(s.tasks[x].mode, c)], queue := s.queue[1..],
      wakeup := s.wakeup[c := s.wakeup[c] + [x]])
  }

  lemma WakeOneShape(s: State, c: nat)
    requires Shape(s) && QueueOk(s) && c < |s.wakeup|
    ensures Shape(WakeOne(s, c)) && QueueOk(WakeOne(s, c))
  {
    if s.queue != [] {
      var q := s.queue[1..];
      forall x | x in q
        ensures x != s.queue[0] && x in s.queue
      {
        var i :| 0 <= i < |q| && q[i] == x;
        assert s.queue[i + 1] == x;
      }
      forall x | x in s.queue && x != s.queue[0]
        ensures x in q
      {
        var i :| 0 <= i < |s.queue| && s.queue[i] == x;
        assert q[i - 1] == x;
      }
    }
  }

  function WakeAll(s: State, c: nat): State
    requires Shape(s) && QueueOk(s) && c < |s.wakeup|
    decreases |s.queue|
  {
    if s.queue == [] then s else
      WakeOneShape(s, c);
      WakeAll(WakeOne(s, c), c)
  }

  /** Releasing what the running coroutine holds, and waking one waiter or all of them. */
  function Release(s: State): State
    requires Shape(s) && QueueOk(s) && Top(s) < |s.tasks| && (s.writer || s.reader > 0)
  {
    var c := Top(s);
    var s' := s.(holds := s.holds[c := Nothing], writer := false, reader := if s.writer then s.reader else s.reader - 1);
    if s.writer then (if s.mutex then WakeOne(s', c) else WakeAll(s', c))
    else if s'.reader == 0 then WakeOne(s', c)
    else s'
  }

  /** Running the wakeup list of the coroutine that has just given up. */
  function Drain(s: State): State
    requires Shape(s) && WakeupOk(s)
    requires s.drains[|s.drains| - 1] != []
  {
    var ds := s.drains[|s.drains| - 1];
    var d := ds[|ds| - 1];
    if d >= |s.wakeup| || s.wakeup[d] == [] then
      s.(drains := s.drains[|s.drains| - 1 := ds[..|ds| - 1]])
    else
      var x := s.wakeup[d][0];
      assert IsWoken(s, x, d);
      Push(s.(wakeup := s.wakeup[d := s.wakeup[d][1..]], tasks := s.tasks[x := Retrying(s.tasks[x].mode)]), x)
  }

  datatype Action =
    | Drain
    | Retry
    | Enter(x: nat)
    | Request(mode: Mode)
    | Unlock
    | Yield
    | Terminate

  /** What may happen next: the wakeup lists first, then whatever the running coroutine does. */
  ghost predicate Enabled(s: State, a: Action)
    requires Inv(s)
  {
    var c, draining := Top(s), s.drains[|s.drains| - 1] != [];
    c < |s.tasks| &&
    match a
    case Drain => draining
    case Retry => !draining && s.tasks[c].Retrying? && |s.stack| > 1
    case Enter(x) => !draining && s.tasks[c] == Running && x < |s.tasks| && s.tasks[x] == Idle
    case Request(m) =>
      !draining && s.tasks[c] == Running && |s.stack| > 1 && s.holds[c] == Nothing && (s.mutex ==> m == Write)
    case Unlock => !draining && s.tasks[c] == Running && s.holds[c] != Nothing
    case Yield => !draining && s.tasks[c] == Running && |s.stack| > 1
    case Terminate => !draining && s.tasks[c] == Running && |s.stack| > 1
  }

  function Next(s: State, a: Action): State
    requires Inv(s) && Enabled(s, a)
  {
    var c := Top(s);
    match a
    case Drain => Drain(s)
    case Retry => Attempt(s, s.tasks[c].mode)
    case Enter(x) => Push(s.(tasks := s.tasks[x := Running]), x)
    case Request(m) => Attempt(s, m)
    case Unlock => HolderMayUnlock(s, c); Release(s)
    case Yield => Pop(s.(tasks := s.tasks[c := Idle]))
    case Terminate => Pop(s.(tasks := s.tasks[c := Dead]))
  }

  // ----- who holds the lock -----

  lemma {:induction false} ReadersUpdate(holds: seq<Hold>, x: nat, h: Hold)
    requires x < |holds|
    ensures Readers(holds[x := h])
         == Readers(holds) - (if holds[x] == Reading then 1 else 0) + (if h == Reading then 1 else 0)
  {
    if x == 0 {
      assert holds[x := h][1..] == holds[1..];
    } else {
      assert holds[x := h][1..] == holds[1..][x - 1 := h];
      ReadersUpdate(holds[1..], x - 1, h);
    }
  }

  lemma {:induction false} ReadersPositive(holds: seq<Hold>, x: nat)
    requires x < |holds| && holds[x] == Reading
    ensures Readers(holds) > 0
  {
    if x > 0 {
      ReadersPositive(holds[1..], x - 1);
    }
  }

  lemma {:induction false} NoReaders(holds: seq<Hold>)
    requires Readers(holds) == 0
    ensures forall x :: 0 <= x < |holds| ==> holds[x] != Reading
  {
    forall x | 0 <= x < |holds|
      ensures holds[x] != Reading
    {
      if holds[x] == Reading {
        ReadersPositive(holds, x);
      }
    }
  }

  /** A coroutine that holds the lock finds its fields as it left them. */
  lemma HolderMayUnlock(s: State, c: nat)
    requires Inv(s) && c < |s.holds| && s.holds[c] != Nothing
    ensures s.writer || s.reader > 0
    ensures s.writer <==> s.holds[c] == Writing
  {
    if s.holds[c] == Reading {
      ReadersPositive(s.holds, c);
    }
  }

  // ----- every step keeps the invariant -----

  lemma PushStack(s: State, x: nat, t: Task)
    requires Shape(s) && StackOk(s) && 0 < x < |s.tasks| && !OnStack(s.tasks[x]) && OnStack(t)
    ensures var s' := Push(s.(tasks := s.tasks[x := t]), x);
            Shape(s') && StackOk(s') && forall d :: WillDrain(s, d) ==> WillDrain(s', d)
  {
    var s' := Push(s.(tasks := s.tasks[x := t]), x);
    assert x !in s.stack;
    forall y | 0 <= y < |s'.tasks| && OnStack(s'.tasks[y])
      ensures y in s'.stack
    {
      if y != x {
        assert y in s.stack;
      }
    }
    WillDrainGrows(s, s');
  }

  lemma WillDrainGrows(s: State, s': State)
    requires |s.drains| <= |s'.drains| && (forall f :: 0 <= f < |s.drains| ==> s'.drains[f] == s.drains[f])
    requires forall x :: x in s.stack ==> x in s'.stack
    ensures forall d :: WillDrain(s, d) ==> WillDrain(s', d)
  {
    forall d | WillDrain(s, d)
      ensures WillDrain(s', d)
    {
      if d !in s.stack {
        var f :| 0 <= f < |s.drains| && d in s.drains[f];
        assert d in s'.drains[f];
      }
    }
  }

  lemma PopStack(s: State, t: Task)
    requires Shape(s) && StackOk(s) && |s.stack| > 1 && s.drains[|s.stack| - 1] == [] && !OnStack(t)
    ensures var c := Top(s);
            && 0 < c < |s.tasks|
            && var s' := Pop(s.(tasks := s.tasks[c := t]));
            && Shape(s') && StackOk(s')
            && forall d :: WillDrain(s, d) ==> WillDrain(s', d)
  {
    var n, c := |s.stack|, Top(s);
    var s' := Pop(s.(tasks := s.tasks[c := t]));
    assert s.stack[0] == 0 && s.stack[n - 1] == c;
    forall x | 0 <= x < |s'.tasks| && OnStack(s'.tasks[x])
      ensures x in s'.stack
    {
      assert x in s.stack;
      var i :| 0 <= i < n && s.stack[i] == x;
      assert s'.stack[i] == x;
    }
    forall d | WillDrain(s, d)
      ensures WillDrain(s', d)
    {
      if d in s.stack {
        var i :| 0 <= i < n && s.stack[i] == d;
        if i < n - 1 {
          assert s'.stack[i] == d;
        } else {
          assert d in s'.drains[n - 2];
        }
      } else {
        var f :| 0 <= f < |s.drains| && d in s.drains[f];
        assert f < n - 1 && d in s'.drains[f];
      }
    }
  }

  /** A task that has nothing to do with the lock at the moment. */
  predicate Aside(t: Task)
  {
    t.Idle? || t.Running? || t.Dead?
  }

  ghost predicate SameLock(s: State, s': State)
  {
    && s'.queue == s.queue && s'.wakeup == s.wakeup && s'.mutex == s.mutex
    && s'.holds == s.holds && s'.writer == s.writer && s'.reader == s.reader
    && forall d :: WillDrain(s, d) ==> WillDrain(s', d)
  }

  lemma ChangeAside(s: State, s': State, c: nat, t: Task)
    requires Inv(s) && Shape(s') && c < |s.tasks| && s'.tasks == s.tasks[c := t] && SameLock(s, s')
    requires Aside(s.tasks[c]) && Aside(t)
    ensures QueueOk(s') && WakeupOk(s') && LockOk(s') && WaitersOk(s')
  {
    AsideKeepsQueue(s, s', c, t);
    AsideKeepsWakeup(s, s', c, t);
    AsideKeepsLock(s, s', c, t);
  }

  lemma AsideKeepsQueue(s: State, s': State, c: nat, t: Task)
    requires Shape(s) && QueueOk(s) && WaitersOk(s)
    requires Shape(s') && c < |s.tasks| && s'.tasks == s.tasks[c := t] && SameLock(s, s') == true
    requires Aside(s.tasks[c]) && Aside(t)
    ensures QueueOk(s') && WaitersOk(s') == true
  {
    if Free(s) && s.queue != [] {
      var x: nat :| Pending(s, x);
      assert Pending(s', x);
    }
  }

  lemma AsideKeepsWakeup(s: State, s': State, c: nat, t: Task)
    requires Shape(s) && WakeupOk(s)
    requires Shape(s') && c < |s.tasks| && s'.tasks == s.tasks[c := t] && SameLock(s, s')
    requires Aside(s.tasks[c]) && Aside(t)
    ensures WakeupOk(s') == true
  {
    forall b, i | 0 <= b < |s'.wakeup| && 0 <= i < |s'.wakeup[b]|
      ensures IsWoken(s', s'.wakeup[b][i], b)
    {
      assert IsWoken(s, s.wakeup[b][i], b);
    }
  }

  lemma AsideKeepsLock(s: State, s': State, c: nat, t: Task)
    requires Shape(s) && LockOk(s)
    requires Shape(s') && c < |s.tasks| && s'.tasks == s.tasks[c := t] && SameLock(s, s')
    requires Aside(s.tasks[c]) && Aside(t)
    ensures LockOk(s') == true
  {
  }

  /** The running coroutine goes off the stack without touching the lock. */
  lemma LeaveKeepsInv(s: State, t: Task)
    requires Inv(s) && |s.stack| > 1 && s.drains[|s.stack| - 1] == []
    requires s.tasks[Top(s)] == Running && (t == Idle || t == Dead)
    ensures Inv(Pop(s.(tasks := s.tasks[Top(s) := t]))) == true
  {
    PopStack(s, t);
    ChangeAside(s, Pop(s.(tasks := s.tasks[Top(s) := t])), Top(s), t);
  }

  lemma EnterKeepsInv(s: State, x: nat)
    requires Inv(s) && x < |s.tasks| && s.tasks[x] == Idle
    ensures Inv(Push(s.(tasks := s.tasks[x := Running]), x)) == true
  {
    PushStack(s, x, Running);
    ChangeAside(s, Push(s.(tasks := s.tasks[x := Running]), x), x, Running);
  }

  lemma TakeKeepsInv(s: State, m: Mode)
    requires Inv(s) && |s.stack| > 1 && OnStack(s.tasks[Top(s)]) && s.holds[Top(s)] == Nothing
    requires Available(s, m) && Top(s) != 0 && (s.mutex ==> m == Write)
    ensures Inv(Attempt(s, m)) == true
  {
    var c := Top(s);
    var s' := Attempt(s, m);
    assert StackOk(s') && QueueOk(s');
    WillDrainGrows(s, s');
    assert WakeupOk(s') by {
      WakeupFrame(s, s', c);
    }
    assert LockOk(s') by {
      ReadersUpdate(s.holds, c, if m == Read then Reading else Writing);
      assert s'.holds[c] != Nothing;
    }
  }

  lemma WakeupFrame(s: State, s': State, c: nat)
    requires Inv(s) && Shape(s') && c < |s.tasks| == |s'.tasks| && s'.wakeup == s.wakeup
    requires forall x :: 0 <= x < |s.tasks| && x != c ==> s'.tasks[x] == s.tasks[x]
    requires !s.tasks[c].Woken? && !s'.tasks[c].Woken?
    requires forall d :: WillDrain(s, d) ==> WillDrain(s', d)
    ensures WakeupOk(s') == true
  {
    forall b, i | 0 <= b < |s'.wakeup| && 0 <= i < |s'.wakeup[b]|
      ensures IsWoken(s', s'.wakeup[b][i], b)
    {
      assert IsWoken(s, s.wakeup[b][i], b);
    }
  }

  lemma WaitKeepsInv(s: State, m: Mode)
    requires Inv(s) && |s.stack| > 1 && OnStack(s.tasks[Top(s)]) && s.holds[Top(s)] == Nothing
    requires s.drains[|s.stack| - 1] == []
    requires !Available(s, m) && (s.mutex ==> m == Write)
    ensures Inv(Attempt(s, m)) == true
  {
    var c := Top(s);
    var s' := Attempt(s, m);
    PopStack(s, Waiting(m));
    QueuedAtTail(s, s', c, m);
    WakeupFrame(s, s', c);
    WaitingKeepsLock(s, s', c, m);
  }

  lemma QueuedAtTail(s: State, s': State, c: nat, m: Mode)
    requires Inv(s) && Shape(s') && c < |s.tasks| && OnStack(s.tasks[c])
    requires s'.tasks == s.tasks[c := Waiting(m)] && s'.queue == s.queue + [c]
    ensures QueueOk(s') == true
  {
    forall x | 0 <= x < |s'.tasks| && s'.tasks[x].Waiting?
      ensures x in s'.queue
    {
      if x != c {
        assert x in s.queue;
      } else {
        assert s'.queue[|s.queue|] == c;
      }
    }
  }

  lemma WaitingKeepsLock(s: State, s': State, c: nat, m: Mode)
    requires Inv(s) && Shape(s') && QueueOk(s') && c < |s.tasks| && s.holds[c] == Nothing && !Available(s, m)
    requires s'.tasks == s.tasks[c := Waiting(m)] && s'.queue == s.queue + [c] && (s.mutex ==> m == Write)
    requires s'.mutex == s.mutex && s'.holds == s.holds && s'.writer == s.writer && s'.reader == s.reader
    ensures LockOk(s') == true && WaitersOk(s') == true
  {
  }

  /** Everything but the promise to the waiters, which an unlock restores at its end. */
  ghost predicate Basic(s: State)
  {
    Shape(s) && StackOk(s) && QueueOk(s) && WakeupOk(s) && LockOk(s)
  }

  lemma WakeOneKeepsBasic(s: State, c: nat)
    requires Basic(s) && c in s.stack && 0 < c < |s.tasks|
    ensures Basic(WakeOne(s, c)) == true
    ensures s.queue != [] ==> exists x: nat :: Pending(WakeOne(s, c), x)
  {
    if s.queue != [] {
      WakeOneShape(s, c);
      WakeOneKeepsStack(s, c);
      WakeOneKeepsWakeup(s, c);
      WakeOneKeepsLock(s, c);
      assert Pending(WakeOne(s, c), s.queue[0]);
    }
  }

  lemma WakeOneKeepsStack(s: State, c: nat)
    requires Basic(s) && c in s.stack && 0 < c < |s.tasks| && s.queue != [] && Shape(WakeOne(s, c))
    ensures StackOk(WakeOne(s, c)) == true
  {
    assert s.tasks[s.queue[0]].Waiting?;
  }

  lemma WakeOneKeepsWakeup(s: State, c: nat)
    requires Basic(s) && c in s.stack && 0 < c < |s.tasks| && s.queue != [] && Shape(WakeOne(s, c))
    ensures WakeupOk(WakeOne(s, c)) == true
  {
    var s' := WakeOne(s, c);
    WokenIsListed(s, c, s');
    forall d | WillDrain(s, d)
      ensures WillDrain(s', d)
    {
    }
  }

  lemma WakeOneKeepsLock(s: State, c: nat)
    requires Basic(s) && c in s.stack && 0 < c < |s.tasks| && s.queue != [] && Shape(WakeOne(s, c))
    ensures LockOk(WakeOne(s, c)) == true
  {
    assert s.tasks[s.queue[0]].Waiting?;
  }

  lemma WokenIsListed(s: State, c: nat, s': State)
    requires Basic(s) && c < |s.tasks| && s.queue != [] && s' == WakeOne(s, c)
    ensures forall b :: 0 <= b < |s'.wakeup| ==> NoDuplicates(s'.wakeup[b])
    ensures forall b, i :: 0 <= b < |s'.wakeup| && 0 <= i < |s'.wakeup[b]| ==> IsWoken(s', s'.wakeup[b][i], b)
    ensures forall y :: 0 <= y < |s'.tasks| && s'.tasks[y].Woken? ==>
              s'.tasks[y].waker < |s'.wakeup| && y in s'.wakeup[s'.tasks[y].waker]
  {
    var x, list := s.queue[0], s.wakeup[c];
    assert s'.wakeup[c] == list + [x] && s'.wakeup[c][|list|] == x;
    forall b, i | 0 <= b < |s'.wakeup| && 0 <= i < |s'.wakeup[b]|
      ensures IsWoken(s', s'.wakeup[b][i], b)
      ensures b == c && i < |list| ==> s'.wakeup[b][i] != x
    {
      if b != c || i < |list| {
        assert IsWoken(s, s.wakeup[b][i], b);
      }
    }
    forall y | 0 <= y < |s'.tasks| && s'.tasks[y].Woken?
      ensures s'.tasks[y].waker < |s'.wakeup| && y in s'.wakeup[s'.tasks[y].waker]
    {
      if y != x {
        assert y in s.wakeup[s.tasks[y].waker];
      }
    }
  }

  lemma {:induction false} WakeAllKeepsBasic(s: State, c: nat)
    requires Basic(s) && c in s.stack && 0 < c < |s.tasks|
    ensures var s' := WakeAll(s, c);
            Basic(s') == true && s'.queue == [] && s'.writer == s.writer && s'.reader == s.reader
    decreases |s.queue|
  {
    if s.queue != [] {
      WakeOneKeepsBasic(s, c);
      WakeAllKeepsBasic(WakeOne(s, c), c);
    }
  }

  /** The state in the middle of an unlock: given back, nobody woken yet. */
  function GivenBack(s: State): State
    requires Shape(s) && Top(s) < |s.tasks| && (s.writer || s.reader > 0)
  {
    s.(holds := s.holds[Top(s) := Nothing], writer := false, reader := if s.writer then s.reader else s.reader - 1)
  }

  lemma GivenBackIsBasic(s: State)
    requires Inv(s) && s.holds[Top(s)] != Nothing
    ensures s.writer || s.reader > 0
    ensures Basic(GivenBack(s)) == true
  {
    var c := Top(s);
    HolderMayUnlock(s, c);
    ReadersUpdate(s.holds, c, Nothing);
    var s' := GivenBack(s);
    assert forall d :: WillDrain(s, d) ==> WillDrain(s', d);
    assert WakeupOk(s') by {
      forall b, i | 0 <= b < |s'.wakeup| && 0 <= i < |s'.wakeup[b]|
        ensures IsWoken(s', s'.wakeup[b][i], b)
      {
        assert IsWoken(s, s.wakeup[b][i], b);
      }
    }
    assert LockOk(s') by {
      if s.writer {
        assert s.holds[c] == Writing;
      } else {
        assert forall x :: 0 <= x < |s'.holds| ==> s'.holds[x] != Writing;
      }
    }
  }

  lemma UnlockKeepsInv(s: State)
    requires Inv(s) && s.holds[Top(s)] != Nothing
    ensures s.writer || s.reader > 0
    ensures Inv(Release(s)) == true
  {
    var c := Top(s);
    GivenBackIsBasic(s);
    var s' := GivenBack(s);
    WakeOneKeepsBasic(s', c);
    if s.writer && !s.mutex {
      WakeAllKeepsBasic(s', c);
    } else {
      WaitersServed(s);
    }
  }

  /** What is left in the queue are writers, and if the lock is free one waiter was woken. */
  lemma WaitersServed(s: State)
    requires Inv(s) && s.holds[Top(s)] != Nothing && (s.writer || s.reader > 0)
    requires s.writer ==> s.mutex
    requires Basic(GivenBack(s)) && Basic(WakeOne(GivenBack(s), Top(s)))
    requires s.queue != [] ==> exists x: nat :: Pending(WakeOne(GivenBack(s), Top(s)), x)
    ensures WaitersOk(Release(s)) == true
  {
    var r := Release(s);
    assert Shape(r) && QueueOk(r);
    forall i | 0 <= i < |r.queue| && !r.writer
      ensures r.tasks[r.queue[i]].mode == Write
    {
      var x := r.queue[i];
      assert r.tasks[x].Waiting?;
      assert s.tasks[x] == r.tasks[x];
      if !s.mutex {
        assert x in s.queue;
      }
    }
  }

  lemma DrainKeepsInv(s: State)
    requires Inv(s) && s.drains[|s.drains| - 1] != []
    ensures Inv(Drain(s)) == true
  {
    var ds := s.drains[|s.drains| - 1];
    var d := ds[|ds| - 1];
    assert d in ds;
    if s.wakeup[d] == [] {
      DrainDone(s);
    } else {
      DrainEnters(s);
    }
  }

  lemma DrainDone(s: State)
    requires Inv(s) && s.drains[|s.drains| - 1] != []
    requires var ds := s.drains[|s.drains| - 1]; ds[|ds| - 1] < |s.wakeup| && s.wakeup[ds[|ds| - 1]] == []
    ensures Inv(Drain(s)) == true
  {
    var n, s' := |s.drains|, Drain(s);
    var ds := s.drains[n - 1];
    var d := ds[|ds| - 1];
    forall c | WillDrain(s, c) && c != d
      ensures WillDrain(s', c)
    {
      if c !in s.stack {
        var f :| 0 <= f < n && c in s.drains[f];
        if f == n - 1 {
          var i :| 0 <= i < |ds| && ds[i] == c;
          assert i < |ds| - 1 && s'.drains[f][i] == c;
        }
        assert c in s'.drains[f];
      }
    }
    assert StackOk(s') by {
      forall f, c | 0 <= f < n && c in s'.drains[f]
        ensures c < |s.tasks|
      {
        assert c in s.drains[f];
      }
    }
    assert WakeupOk(s') by {
      forall b, i | 0 <= b < |s'.wakeup| && 0 <= i < |s'.wakeup[b]|
        ensures IsWoken(s', s'.wakeup[b][i], b)
      {
        assert IsWoken(s, s.wakeup[b][i], b);
      }
    }
    if Free(s) && s.queue != [] {
      var x: nat :| Pending(s, x);
      assert Pending(s', x);
    }
  }

  lemma DrainEnters(s: State)
    requires Inv(s) && s.drains[|s.drains| - 1] != []
    requires var ds := s.drains[|s.drains| - 1]; ds[|ds| - 1] < |s.wakeup| && s.wakeup[ds[|ds| - 1]] != []
    ensures Inv(Drain(s)) == true
  {
    var s', ds := Drain(s), s.drains[|s.drains| - 1];
    var d := ds[|ds| - 1];
    var x := s.wakeup[d][0];
    assert IsWoken(s, x, d) && !OnStack(s.tasks[x]) && x != 0;
    PushStack(s, x, Retrying(s.tasks[x].mode));
    StackOfPush(s, s', x);
    assert forall c :: WillDrain(s, c) ==> WillDrain(s', c);
    assert WakeupOk(s') by {
      EnteredIsUnlisted(s, d, s');
    }
    RetryKeepsLock(s, s', x);
  }

  lemma RetryKeepsLock(s: State, s': State, x: nat)
    requires Inv(s) && Shape(s') && x < |s.tasks| && s.tasks[x].Woken?
    requires s'.tasks == s.tasks[x := Retrying(s.tasks[x].mode)] && s'.queue == s.queue
    requires s'.mutex == s.mutex && s'.holds == s.holds && s'.writer == s.writer && s'.reader == s.reader
    ensures QueueOk(s') == true && LockOk(s') == true && WaitersOk(s') == true
  {
    assert QueueOk(s');
    assert Pending(s', x);
  }

  lemma StackOfPush(s: State, s': State, x: nat)
    requires Inv(s) && x < |s.tasks| && s.tasks[x].Woken?
    requires var p := Push(s.(tasks := s.tasks[x := Retrying(s.tasks[x].mode)]), x);
             Shape(p) && StackOk(p) && s'.tasks == p.tasks && s'.stack == p.stack && s'.drains == p.drains && s'.resumes == p.resumes
             && |s'.holds| == |s.holds| && |s'.wakeup| == |s.wakeup|
             && forall c :: WillDrain(s, c) ==> WillDrain(p, c)
    ensures Shape(s') && StackOk(s') && forall c :: WillDrain(s, c) ==> WillDrain(s', c)
  {
    var p := Push(s.(tasks := s.tasks[x := Retrying(s.tasks[x].mode)]), x);
    forall c | WillDrain(s, c)
      ensures WillDrain(s', c)
    {
      assert WillDrain(p, c);
      if c !in s'.stack {
        var f :| 0 <= f < |p.drains| && c in p.drains[f];
        assert c in s'.drains[f];
      }
    }
  }

  lemma EnteredIsUnlisted(s: State, d: nat, s': State)
    requires Inv(s) && d < |s.wakeup| && s.wakeup[d] != [] && IsWoken(s, s.wakeup[d][0], d)
    requires Shape(s') && s'.wakeup == s.wakeup[d := s.wakeup[d][1..]]
    requires s'.tasks == s.tasks[s.wakeup[d][0] := Retrying(s.tasks[s.wakeup[d][0]].mode)]
    requires forall c :: WillDrain(s, c) ==> WillDrain(s', c)
    ensures WakeupOk(s') == true
  {
    var x, list := s.wakeup[d][0], s.wakeup[d][1..];
    forall b, i | 0 <= b < |s'.wakeup| && 0 <= i < |s'.wakeup[b]|
      ensures IsWoken(s', s'.wakeup[b][i], b)
    {
      if b == d {
        assert list[i] == s.wakeup[d][i + 1] != x;
        assert IsWoken(s, s.wakeup[d][i + 1], d);
      } else {
        assert IsWoken(s, s.wakeup[b][i], b);
      }
    }
    forall y | 0 <= y < |s'.tasks| && s'.tasks[y].Woken?
      ensures y in s'.wakeup[s'.tasks[y].waker]
    {
      assert y in s.wakeup[s.tasks[y].waker];
      if s.tasks[y].waker == d {
        var i :| 0 <= i < |s.wakeup[d]| && s.wakeup[d][i] == y;
        assert list[i - 1] == y;
      }
    }
  }

  // ----- every schedule -----

  /** Whatever a coroutine or the scheduler does next, the invariant holds again. */
  lemma StepKeepsInv(s: State, a: Action)
    requires Inv(s) && Enabled(s, a)
    ensures Inv(Next(s, a)) == true
  {
    var c := Top(s);
    assert s.stack[|s.stack| - 1] == c;
    match a
    case Drain => DrainKeepsInv(s);
    case Retry =>
      if Available(s, s.tasks[c].mode) {
        TakeKeepsInv(s, s.tasks[c].mode);
      } else {
        WaitKeepsInv(s, s.tasks[c].mode);
      }
    case Enter(x) => EnterKeepsInv(s, x);
    case Request(m) =>
      if Available(s, m) {
        TakeKeepsInv(s, m);
      } else {
        WaitKeepsInv(s, m);
      }
    case Unlock => UnlockKeepsInv(s);
    case Yield => LeaveKeepsInv(s, Idle);
    case Terminate => LeaveKeepsInv(s, Dead);
  }

  /** A lock nobody has used yet, among `n` coroutines. */
  function Start(n: nat, mutex: bool): State
    requires n > 0
  {
    State(mutex, seq(n, i => if i == 0 then Running else Idle), seq(n, _ => Nothing), [0], [[]],
          seq(n, _ => []), seq(n, _ => []), [], false, 0)
  }

  lemma {:induction false} NobodyReads(n: nat)
    ensures Readers(seq(n, _ => Nothing)) == 0
  {
    if n > 0 {
      assert seq(n, _ => Nothing)[1..] == seq(n - 1, _ => Nothing);
      NobodyReads(n - 1);
    }
  }

  ghost predicate Schedule(s: State, actions: seq<Action>)
    requires Inv(s)
    decreases |actions|
  {
    actions == [] || (Enabled(s, actions[0]) && (StepKeepsInv(s, actions[0]); Schedule(Next(s, actions[0]), actions[1..])))
  }

  ghost function After(s: State, actions: seq<Action>): State
    requires Inv(s) && Schedule(s, actions)
    decreases |actions|
  {
    if actions == [] then s else
      StepKeepsInv(s, actions[0]);
      After(Next(s, actions[0]), actions[1..])
  }

  /** At most one writer, and never with a reader. */
  ghost predicate Exclusive(s: State)
  {
    forall x, y :: 0 <= x < |s.holds| && 0 <= y < |s.holds| && s.holds[x] == Writing && s.holds[y] != Nothing ==> x == y
  }

  /** Of a mutex there is at most one holder of any kind. */
  ghost predicate SingleHolder(s: State)
  {
    forall x, y :: 0 <= x < |s.holds| && 0 <= y < |s.holds| && s.holds[x] != Nothing && s.holds[y] != Nothing ==> x == y
  }

  /** A free lock with waiters has one of them woken, in a list that will be run. */
  ghost predicate NoWakeupLost(s: State)
  {
    Free(s) && s.queue != [] ==>
      exists x: nat :: Pending(s, x) && (s.tasks[x].Woken? ==> WillDrain(s, s.tasks[x].waker))
  }

  /** Readers queue for a writer only. */
  ghost predicate ReadersWaitForWriter(s: State)
  {
    forall x :: 0 <= x < |s.tasks| && s.tasks[x] == Waiting(Read) ==> s.writer
  }

  lemma InvIsSafe(s: State)
    requires Inv(s)
    ensures Exclusive(s) && ReadersWaitForWriter(s) && NoWakeupLost(s)
    ensures s.mutex ==> SingleHolder(s)
  {
    if s.reader == 0 {
      NoReaders(s.holds);
    }
    forall x | 0 <= x < |s.tasks| && s.tasks[x] == Waiting(Read)
      ensures s.writer
    {
      assert x in s.queue;
      var i :| 0 <= i < |s.queue| && s.queue[i] == x;
      assert s.tasks[s.queue[i]].mode == Read;
    }
    if Free(s) && s.queue != [] {
      var x: nat :| Pending(s, x);
      if s.tasks[x].Woken? {
        assert s.wakeup[s.tasks[x].waker] != [];
      }
    }
  }

  /** All of this holds after every schedule, whoever barges in. */
  lemma {:induction false} SafeAfterEverySchedule(n: nat, mutex: bool, actions: seq<Action>)
    requires n > 0
    ensures Inv(Start(n, mutex))
    ensures Schedule(Start(n, mutex), actions) ==>
              var s := After(Start(n, mutex), actions);
              && Exclusive(s) && ReadersWaitForWriter(s) && NoWakeupLost(s)
              && (mutex ==> SingleHolder(s))
  {
    StartIsOk(n, mutex);
    if Schedule(Start(n, mutex), actions) {
      AfterKeepsInv(Start(n, mutex), actions);
      InvIsSafe(After(Start(n, mutex), actions));
    }
  }

  lemma StartIsOk(n: nat, mutex: bool)
    requires n > 0
    ensures Inv(Start(n, mutex)) == true
  {
    NobodyReads(n);
    var s := Start(n, mutex);
    assert s.stack[0] == 0;
  }

  lemma {:induction false} AfterKeepsInv(s: State, actions: seq<Action>)
    requires Inv(s) && Schedule(s, actions)
    ensures Inv(After(s, actions)) && After(s, actions).mutex == s.mutex
    decreases |actions|
  {
    if actions != [] {
      StepKeepsInv(s, actions[0]);
      StepKeepsKind(s, actions[0]);
      AfterKeepsInv(Next(s, actions[0]), actions[1..]);
    }
  }

  lemma StepKeepsKind(s: State, a: Action)
    requires Inv(s) && Enabled(s, a)
    ensures Next(s, a).mutex == s.mutex
  {
    if a == Unlock && s.writer && !s.mutex {
      GivenBackIsBasic(s);
      WakeAllKeepsKind(GivenBack(s), Top(s));
    }
  }

  lemma {:induction false} WakeAllKeepsKind(s: State, c: nat)
    requires Shape(s) && QueueOk(s) && c < |s.wakeup|
    ensures WakeAll(s, c).mutex == s.mutex
    decreases |s.queue|
  {
    if s.queue != [] {
      WakeOneShape(s, c);
      WakeAllKeepsKind(WakeOne(s, c), c);
    }
  }

  /** Once only the thread itself is left to run, a free lock has nobody waiting for it. */
  lemma NobodyIsForgotten(s: State)
    requires Inv(s) && |s.stack| == 1 && s.drains[0] == [] && Free(s)
    ensures forall x :: 0 <= x < |s.tasks| ==> !s.tasks[x].Waiting? && !s.tasks[x].Woken?
  {
    forall c | 0 <= c < |s.wakeup|
      ensures s.wakeup[c] == []
    {
      assert WillDrain(s, c) ==> c == 0;
    }
    forall x: nat | x < |s.tasks|
      ensures !Pending(s, x)
    {
      assert OnStack(s.tasks[x]) ==> x in s.stack;
    }
    assert s.queue == [];
  }

  /** A coroutine taken from a wakeup list is never on the stack already: it is not re-entered. */
  lemma WokenIsNotRunning(s: State, c: nat, i: nat)
    requires Inv(s) && c < |s.wakeup| && i < |s.wakeup[c]|
    ensures s.wakeup[c][i] !in s.stack
  {
    assert IsWoken(s, s.wakeup[c][i], c);
  }

  /** How many waiters an unlock wakes: all of them for a writer, one for a mutex or the last reader. */
  function Chosen(s: State): nat
  {
    if s.writer && !s.mutex then |s.queue| else if s.writer || s.reader == 1 then Min(1, |s.queue|) else 0
  }

  /** The first `k` waiters, in their order, have gone to the end of the wakeup list of `c`. */
  ghost predicate FirstWoken(s: State, s': State, c: nat, k: nat)
  {
    && k <= |s.queue| && c < |s.wakeup| && s'.queue == s.queue[k..]
    && s'.wakeup == s.wakeup[c := s.wakeup[c] + s.queue[..k]]
  }

  lemma NoneAdded(lists: seq<seq<nat>>, c: nat, q: seq<nat>)
    requires c < |lists|
    ensures lists[c := lists[c] + q[..0]] == lists && q[0..] == q
  {
    assert lists[c] + q[..0] == lists[c];
  }

  lemma OneMoreAdded(lists: seq<seq<nat>>, c: nat, q: seq<nat>, k: nat)
    requires c < |lists| && 0 < k <= |q|
    ensures var l := lists[c := lists[c] + [q[0]]];
            l[c := l[c] + q[1..][..k - 1]] == lists[c := lists[c] + q[..k]] && q[1..][k - 1..] == q[k..]
  {
    assert lists[c] + [q[0]] + q[1..][..k - 1] == lists[c] + q[..k];
  }

  lemma {:induction false} WakeAllTakesAll(s: State, c: nat)
    requires Shape(s) && QueueOk(s) && c < |s.wakeup|
    ensures FirstWoken(s, WakeAll(s, c), c, |s.queue|) == true
    decreases |s.queue|
  {
    if s.queue == [] {
      NoneAdded(s.wakeup, c, s.queue);
    } else {
      WakeOneShape(s, c);
      WakeAllTakesAll(WakeOne(s, c), c);
      OneMoreAdded(s.wakeup, c, s.queue, |s.queue|);
    }
  }

  lemma WakeOneTakesFirst(s: State, c: nat)
    requires Shape(s) && QueueOk(s) && c < |s.wakeup|
    ensures FirstWoken(s, WakeOne(s, c), c, Min(1, |s.queue|)) == true
  {
    if s.queue == [] {
      NoneAdded(s.wakeup, c, s.queue);
    } else {
      assert s.queue[..1] == [s.queue[0]];
    }
  }

  /** Waiters are woken in the order in which they began to wait. */
  lemma UnlockWakesInOrder(s: State)
    requires Inv(s) && Enabled(s, Unlock)
    ensures FirstWoken(s, Next(s, Unlock), Top(s), Chosen(s)) == true
  {
    var c := Top(s);
    HolderMayUnlock(s, c);
    GivenBackIsBasic(s);
    WakeAllTakesAll(GivenBack(s), c);
    WakeOneTakesFirst(GivenBack(s), c);
    NoneAdded(s.wakeup, c, s.queue);
  }

  /** Nothing else wakes anybody: the others leave the queue alone or add the running coroutine at its end. */
  lemma OnlyUnlockWakes(s: State, a: Action)
    requires Inv(s) && Enabled(s, a) && a != Unlock
    ensures Next(s, a).queue == s.queue || Next(s, a).queue == s.queue + [Top(s)]
    ensures Next(s, a).wakeup == s.wakeup ||
            (a == Action.Drain && FirstEntered(s, Next(s, a), s.drains[|s.drains| - 1][|s.drains[|s.drains| - 1]| - 1]))
  {
  }

  /** The first coroutine of the wakeup list of `d` has been entered. */
  ghost predicate FirstEntered(s: State, s': State, d: nat)
  {
    && d < |s.wakeup| && s.wakeup[d] != [] && s'.wakeup == s.wakeup[d := s.wakeup[d][1..]]
    && s'.stack == s.stack + [s.wakeup[d][0]]
  }

  ghost function Waking(s: State, c: nat, wake: bool, all: bool): State
    requires Shape(s) && QueueOk(s) && c < |s.wakeup|
  {
    if all then WakeAll(s, c) else if wake then WakeOne(s, c) else s
  }

  lemma UnlockIs(s: State, c: nat, wake: bool, all: bool)
    requires Inv(s) && Enabled(s, Unlock) && c == Top(s)
    requires wake == (s.writer || s.reader == 1) && all == (s.writer && !s.mutex)
    ensures c < |s.tasks| && (s.writer || s.reader > 0)
    ensures var b := GivenBack(s);
            && Basic(b) == true && Shape(b) && QueueOk(b) && c < |b.wakeup|
            && Next(s, Unlock) == Waking(b, c, wake, all)
    ensures Inv(Next(s, Unlock)) == true
  {
    StepKeepsInv(s, Unlock);
    HolderMayUnlock(s, c);
    GivenBackIsBasic(s);
  }

  // ----- the operations, on fields -----

  class CoLock {
    const mutex: bool
    var tasks: seq<Task>
    var holds: seq<Hold>
    var stack: seq<nat>
    var drains: seq<seq<nat>>
    var resumes: seq<seq<nat>>
    var wakeup: seq<seq<nat>>
    var queue: seq<nat>
    var writer: bool
    var reader: nat

    ghost function View(): State
      reads this
    {
      State(mutex, tasks, holds, stack, drains, resumes, wakeup, queue, writer, reader)
    }

    constructor (n: nat, mutex: bool)
      requires n > 0
      ensures View() == Start(n, mutex) && Inv(View())
    {
      this.mutex := mutex;
      tasks, holds := seq(n, i => if i == 0 then Running else Idle), seq(n, _ => Nothing);
      stack, drains, resumes, wakeup, queue := [0], [[]], seq(n, _ => []), seq(n, _ => []), [];
      writer, reader := false, 0;
      new;
      StartIsOk(n, mutex);
    }

    /** The caller leaves the stack as `t`; the coroutine below has its wakeup list to run. */
    method SwapOut(t: Task)
      requires 1 < |stack| == |drains| && Top(View()) < |tasks| == |resumes|
      modifies `tasks, `stack, `drains, `resumes
      ensures View() == Pop(old(View()).(tasks := old(tasks)[Top(old(View())) := t]))
    {
      var n := |stack|;
      var c := stack[n - 1];
      tasks := tasks[c := t];
      resumes := resumes[c := [stack[n - 2]]];
      stack, drains := stack[..n - 1], drains[..n - 2] + [drains[n - 2] + [c]];
    }

    method Yield()
      requires Inv(View()) && Enabled(View(), Action.Yield)
      modifies this
      ensures View() == Next(old(View()), Action.Yield) && Inv(View()) == true
    {
      StepKeepsInv(View(), Action.Yield);
      SwapOut(Idle);
    }

    method Terminate()
      requires Inv(View()) && Enabled(View(), Action.Terminate)
      modifies this
      ensures View() == Next(old(View()), Action.Terminate) && Inv(View()) == true
    {
      StepKeepsInv(View(), Action.Terminate);
      SwapOut(Dead);
    }

    method Enter(x: nat)
      requires Inv(View()) && Enabled(View(), Action.Enter(x))
      modifies this
      ensures View() == Next(old(View()), Action.Enter(x)) && Inv(View()) == true
    {
      StepKeepsInv(View(), Action.Enter(x));
      tasks, stack, drains := tasks[x := Running], stack + [x], drains + [resumes[x]];
    }

    /** One pass of the lock loops: take the lock if it is available, otherwise queue up and yield. */
    method TryLock(m: Mode)
      requires Shape(View()) && |stack| > 1 && Top(View()) < |tasks|
      modifies this
      ensures View() == Attempt(old(View()), m)
    {
      var c := stack[|stack| - 1];
      if writer || (m == Write && reader > 0) {
        queue := queue + [c];
        SwapOut(Waiting(m));
      } else {
        tasks := tasks[c := Running];
        if m == Read {
          reader, holds := reader + 1, holds[c := Reading];
        } else {
          writer, holds := true, holds[c := Writing];
        }
      }
    }

    method Lock(m: Mode)
      requires Inv(View()) && Enabled(View(), Request(m))
      modifies this
      ensures View() == Next(old(View()), Request(m)) && Inv(View()) == true
    {
      StepKeepsInv(View(), Request(m));
      TryLock(m);
    }

    /** A woken waiter goes round its loop again. */
    method LockAgain()
      requires Inv(View()) && Enabled(View(), Retry)
      modifies this
      ensures View() == Next(old(View()), Retry) && Inv(View()) == true
    {
      StepKeepsInv(View(), Retry);
      TryLock(tasks[stack[|stack| - 1]].mode);
    }

    method QueueNext(c: nat)
      requires Shape(View()) && QueueOk(View()) && c < |wakeup|
      modifies this
      ensures View() == WakeOne(old(View()), c)
    {
      if queue != [] {
        var x := queue[0];
        tasks := tasks[x := Woken(tasks[x].mode, c)];
        queue := queue[1..];
        wakeup := wakeup[c := wakeup[c] + [x]];
      }
    }

    method QueueRestartAll(c: nat)
      requires Shape(View()) && QueueOk(View()) && c < |wakeup|
      modifies this
      ensures View() == WakeAll(old(View()), c)
    {
      while queue != []
        invariant Shape(View()) && QueueOk(View()) && c < |wakeup|
        invariant WakeAll(View(), c) == WakeAll(old(View()), c)
        decreases |queue|
      {
        WakeOneShape(View(), c);
        QueueNext(c);
      }
    }

    /** The lock's fields are put back before anybody is woken. */
    method GiveBack() returns (wake: bool, all: bool)
      requires Shape(View()) && Top(View()) < |tasks| && (writer || reader > 0)
      modifies `holds, `writer, `reader
      ensures View() == GivenBack(old(View()))
      ensures wake == (old(writer) || reader == 0) && all == (old(writer) && !mutex)
    {
      var c := stack[|stack| - 1];
      holds := holds[c := Nothing];
      wake, all := true, false;
      if writer {
        writer := false;
        all := !mutex;
      } else {
        reader := reader - 1;
        wake := reader == 0;
      }
    }

    method Unlock()
      requires Inv(View()) && Enabled(View(), Action.Unlock)
      modifies this
      ensures View() == Next(old(View()), Action.Unlock) && Inv(View()) == true
    {
      UnlockIs(View(), Top(View()), writer || reader == 1, writer && !mutex);
      var c := stack[|stack| - 1];
      var wake, all := GiveBack();
      WakeAfter(c, wake, all);
    }

    method WakeAfter(c: nat, wake: bool, all: bool)
      requires Basic(View()) == true && c < |wakeup|
      modifies this
      ensures Shape(old(View())) && QueueOk(old(View()))
      ensures View() == Waking(old(View()), c, wake, all)
    {
      assert Basic(View());
      if all {
        QueueRestartAll(c);
      } else if wake {
        QueueNext(c);
      }
    }

    /** One round of running a wakeup list after a coroutine has given up. */
    method RunRestart()
      requires Inv(View()) && Enabled(View(), Action.Drain)
      modifies this
      ensures View() == Next(old(View()), Action.Drain) && Inv(View()) == true
    {
      StepKeepsInv(View(), Action.Drain);
      var top := |drains| - 1;
      var ds := drains[top];
      var d := ds[|ds| - 1];
      assert d in ds;
      if wakeup[d] == [] {
        drains := drains[top := ds[..|ds| - 1]];
      } else {
        var x := wakeup[d][0];
        assert IsWoken(View(), x, d);
        wakeup := wakeup[d := wakeup[d][1..]];
        tasks, stack, drains := tasks[x := Retrying(tasks[x].mode)], stack + [x], drains + [resumes[x]];
      }
    }
  }
}
