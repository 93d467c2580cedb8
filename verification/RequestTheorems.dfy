/** The tracked-request protocol over whole runs. */
module RequestTheorems {
  import opened Bytes
  import opened RequestProtocol
  import opened RequestSafety

  predicate Schedulable(s: State, steps: seq<Step>)
    decreases |steps|
  {
    |steps| == 0 || (Enabled(s, steps[0]) && Schedulable(Next(s, steps[0]), steps[1..]))
  }

  function After(s: State, steps: seq<Step>): State
    requires Schedulable(s, steps)
    decreases |steps|
  {
    if |steps| == 0 then s else After(Next(s, steps[0]), steps[1..])
  }

  lemma {:induction false} RunKeepsInv(s: State, steps: seq<Step>)
    requires Inv(s) == true && Schedulable(s, steps)
    ensures Inv(After(s, steps)) == true
    decreases |steps|
  {
    if |steps| > 0 {
      StepKeepsInv(s, steps[0]);
      RunKeepsInv(Next(s, steps[0]), steps[1..]);
    }
  }

  lemma InitialInv(disk: Disk)
    ensures Inv(Initial(disk)) == true
  {
    assert Inv(Initial(disk));
  }

  /** A state some interleaving of requests leads to. */
  ghost predicate Reachable(disk: Disk, s: State)
  {
    exists steps :: Schedulable(Initial(disk), steps) && s == After(Initial(disk), steps)
  }

  lemma ReachableInv(disk: Disk, s: State)
    requires Reachable(disk, s)
    ensures Inv(s) == true
  {
    var steps :| Schedulable(Initial(disk), steps) && s == After(Initial(disk), steps);
    InitialInv(disk);
    RunKeepsInv(Initial(disk), steps);
  }

  /**
   * Of two requests with overlapping windows, one of them serialising, at most one has passed its
   * wait; and what a request has read for its own write is still on the device.
   */
  lemma MutualExclusion(disk: Disk, s: State, x: Id, y: Id)
    requires Reachable(disk, s) && x in s.reqs && y in s.reqs && x != y
    requires s.reqs[x].serialising || s.reqs[y].serialising
    requires s.reqs[x].overlapOffset < s.reqs[y].overlapOffset + s.reqs[y].overlapBytes
    requires s.reqs[y].overlapOffset < s.reqs[x].overlapOffset + s.reqs[x].overlapBytes
    ensures !(s.reqs[x].Passed() && s.reqs[y].Passed())
    ensures Good(s.disk, s.reqs[x])
  {
    ReachableInv(disk, s);
    assert Structure(s) && Exclusive(s, None);
    assert Conflict(s.reqs[x], s.reqs[y]);
    assert Good(s.disk, s.reqs[x]);
  }

  /** A request that has passed once never waits again, so the later waits need no retry. */
  lemma PassedOnceNeverWaits(disk: Disk, s: State, id: Id)
    requires Reachable(disk, s) && Enabled(s, Continue(id)) && s.reqs[id].NextPhase().Some?
    ensures id in Next(s, Continue(id)).reqs && Next(s, Continue(id)).reqs[id].status == Issued
  {
    ReachableInv(disk, s);
    LaterWaitsPass(s, id);
  }

  /** Skipping the scan when no serialising request is in flight loses nothing. */
  lemma FastPathSound(disk: Disk, s: State, id: Id)
    requires Reachable(disk, s) && id in s.reqs && s.serialisingInFlight == 0
    ensures FirstBlocking(s.tracked, s.reqs, id).None?
  {
    ReachableInv(disk, s);
    assert Structure(s);
    NoneSerialising(s);
  }

  /** No waiter waits for a waiter, so the wait-for graph has no cycle; and somebody can always move. */
  lemma NoDeadlock(disk: Disk, s: State)
    requires Reachable(disk, s)
    ensures forall x :: x in s.reqs && s.reqs[x].status.Waiting? ==>
              s.reqs[x].status.on in s.reqs && s.reqs[s.reqs[x].status.on].Passed()
    ensures s.tracked != [] ==> exists id :: id in s.reqs && CanMove(s, id)
  {
    ReachableInv(disk, s);
    assert WaitsForPassed(s, None);
    if s.tracked != [] {
      var x := s.tracked[0];
      SomebodyMoves(s, x);
    }
  }

  lemma SomebodyMoves(s: State, x: Id)
    requires Structure(s) == true && WaitsForPassed(s, None) == true && x in s.tracked
    ensures exists id :: id in s.reqs && CanMove(s, id)
  {
    assert x in s.reqs;
    var id := if s.reqs[x].status.Waiting? then s.reqs[x].status.on else x;
    assert id in s.reqs && !s.reqs[id].status.Waiting?;
    assert Good(s.disk, s.reqs[id]);
    MoverEnabled(s, id);
  }

  /** One of the request's own steps is enabled. */
  predicate CanMove(s: State, id: Id)
  {
    Enabled(s, Resume(id)) || Enabled(s, Transfer(id)) || Enabled(s, Continue(id))
  }

  lemma MoverEnabled(s: State, id: Id)
    requires id in s.reqs && Good(s.disk, s.reqs[id]) == true && !s.reqs[id].status.Waiting?
    ensures CanMove(s, id)
  {
    if s.reqs[id].Passed() {
      PassedReady(s.disk, s.reqs[id]);
    }
  }

  // ----- the device sees the writes one after the other -----

  datatype DiskWrite = DiskWrite(offset: nat, data: seq<byte>)

  /** The write a step performs, if it performs one. */
  function WriteOf(s: State, step: Step): seq<DiskWrite>
    requires Enabled(s, step)
  {
    if step.Transfer? && s.reqs[step.id].phase == DataWrite
    then [DiskWrite(s.reqs[step.id].offset, s.reqs[step.id].kind.data)] else []
  }

  function WriteLog(s: State, steps: seq<Step>): seq<DiskWrite>
    requires Schedulable(s, steps)
    decreases |steps|
  {
    if |steps| == 0 then [] else WriteOf(s, steps[0]) + WriteLog(Next(s, steps[0]), steps[1..])
  }

  /** Byte `k` after the exact writes of `log`, in order. */
  function Replay(b: byte, log: seq<DiskWrite>, k: nat): byte
    decreases |log|
  {
    if |log| == 0 then b
    else
      var w := log[0];
      Replay(if w.offset <= k < w.offset + |w.data| then w.data[k - w.offset] else b, log[1..], k)
  }

  lemma {:induction false} ReplayAppend(b: byte, log: seq<DiskWrite>, log': seq<DiskWrite>, k: nat)
    ensures Replay(b, log + log', k) == Replay(Replay(b, log, k), log', k)
    decreases |log|
  {
    if |log| == 0 {
      assert log + log' == log';
    } else {
      var w := log[0];
      assert (log + log')[1..] == log[1..] + log';
      ReplayAppend(if w.offset <= k < w.offset + |w.data| then w.data[k - w.offset] else b, log[1..], log', k);
    }
  }

  lemma StepWrites(s: State, step: Step, k: nat)
    requires Inv(s) == true && Enabled(s, step)
    ensures Next(s, step).disk(k) == Replay(s.disk(k), WriteOf(s, step), k)
  {
    if step.Transfer? {
      TransferWrites(s, step, k);
    } else {
      assert WriteOf(s, step) == [];
    }
  }

  lemma TransferWrites(s: State, step: Step, k: nat)
    requires Inv(s) == true && Enabled(s, step) && step.Transfer?
    ensures Transferred(s, step.id).disk(k) == Replay(s.disk(k), WriteOf(s, step), k)
  {
    var r := s.reqs[step.id];
    if r.phase == DataWrite {
      WriteStepIsExact(s, step.id, k);
      ReplayOne(s.disk(k), WriteOf(s, step), k);
    } else if r.phase == CopyWrite {
      CopyStepChangesNothing(s, step.id, k);
    }
  }

  lemma ReplayOne(b: byte, log: seq<DiskWrite>, k: nat)
    requires |log| == 1
    ensures Replay(b, log, k) == var w := log[0]; if w.offset <= k < w.offset + |w.data| then w.data[k - w.offset] else b
  {
    assert log[1..] == [];
  }

  /**
   * Whatever the interleaving, the device ends as if the guest's writes had been applied one at a
   * time, byte exact, in the order of their final transfers: padding to blocks and copy-on-read
   * never store a stale byte.
   */
  lemma {:induction false} WritesAreAtomic(s: State, steps: seq<Step>, k: nat)
    requires Inv(s) == true && Schedulable(s, steps)
    ensures After(s, steps).disk(k) == Replay(s.disk(k), WriteLog(s, steps), k)
    decreases |steps|
  {
    if |steps| > 0 {
      StepKeepsInv(s, steps[0]);
      StepWrites(s, steps[0], k);
      WritesAreAtomic(Next(s, steps[0]), steps[1..], k);
      ReplayAppend(s.disk(k), WriteOf(s, steps[0]), WriteLog(Next(s, steps[0]), steps[1..]), k);
    }
  }

  // ----- every request completes -----

  function PhasesLeft(p: Phase): nat
  {
    match p
    case HeadRead => 3
    case TailRead => 2
    case CopyRead => 2
    case DataWrite => 1
    case DataRead => 1
    case CopyWrite => 1
  }

  function Work(r: Request): nat { 2 * PhasesLeft(r.phase) + if r.status.Moved? then 0 else 1 }

  function IsWoken(r: Request): nat { if r.status.Woken? then 1 else 0 }

  function Total(tracked: seq<Id>, reqs: map<Id, Request>, f: Request -> nat): nat
  {
    if |tracked| == 0 then 0 else (if tracked[0] in reqs then f(reqs[tracked[0]]) else 0) + Total(tracked[1..], reqs, f)
  }

  lemma {:induction false} TotalSame(tracked: seq<Id>, reqs: map<Id, Request>, reqs': map<Id, Request>, f: Request -> nat)
    requires forall id :: id in tracked ==> id in reqs && id in reqs' && f(reqs[id]) == f(reqs'[id])
    ensures Total(tracked, reqs, f) == Total(tracked, reqs', f)
  {
    if |tracked| > 0 {
      assert tracked[0] in tracked;
      TotalSame(tracked[1..], reqs, reqs', f);
    }
  }

  lemma {:induction false} TotalChanged(tracked: seq<Id>, reqs: map<Id, Request>, id: Id, r: Request, f: Request -> nat)
    requires NoDuplicates(tracked) && id in tracked && forall x :: x in tracked ==> x in reqs
    ensures Total(tracked, reqs[id := r], f) + f(reqs[id]) == Total(tracked, reqs, f) + f(r)
  {
    assert forall x :: x in tracked <==> x == tracked[0] || x in tracked[1..];
    if tracked[0] == id {
      TotalSame(tracked[1..], reqs, reqs[id := r], f);
    } else {
      TotalChanged(tracked[1..], reqs, id, r, f);
    }
  }

  lemma {:induction false} TotalRemoved(tracked: seq<Id>, reqs: map<Id, Request>, id: Id, f: Request -> nat)
    requires NoDuplicates(tracked) && id in tracked && forall x :: x in tracked ==> x in reqs
    ensures Total(Remove(tracked, id), reqs, f) + f(reqs[id]) == Total(tracked, reqs, f)
    ensures |Remove(tracked, id)| + 1 == |tracked|
  {
    assert forall x :: x in tracked <==> x == tracked[0] || x in tracked[1..];
    if tracked[0] == id {
      RemoveAbsent(tracked[1..], id);
    } else {
      TotalRemoved(tracked[1..], reqs, id, f);
      assert Remove(tracked, id)[1..] == Remove(tracked[1..], id);
    }
  }

  lemma {:induction false} WokenAtMost(tracked: seq<Id>, reqs: map<Id, Request>)
    ensures Total(tracked, reqs, IsWoken) <= |tracked|
  {
    if |tracked| > 0 {
      WokenAtMost(tracked[1..], reqs);
    }
  }

  /** What remains to be done, where `n` bounds the number of tracked requests. */
  function Remaining(s: State, n: nat): nat
  {
    Total(s.tracked, s.reqs, Work) * (n + 1) + Total(s.tracked, s.reqs, IsWoken)
  }

  lemma WorkDecreases(s: State, s': State, n: nat, less: nat)
    requires Total(s'.tracked, s'.reqs, Work) + less == Total(s.tracked, s.reqs, Work)
    requires Total(s'.tracked, s'.reqs, IsWoken) <= n
    requires less > 0 || Total(s'.tracked, s'.reqs, IsWoken) < Total(s.tracked, s.reqs, IsWoken)
    ensures Remaining(s', n) < Remaining(s, n)
  {
    WorkOutweighs(Total(s.tracked, s.reqs, Work), Total(s'.tracked, s'.reqs, Work), less, n);
  }

  lemma WorkOutweighs(w: nat, w': nat, less: nat, n: nat)
    requires w' + less == w
    ensures w * (n + 1) == w' * (n + 1) + less * (n + 1)
    ensures less > 0 ==> less * (n + 1) >= n + 1
  {
    if less > 0 {
      ProductAtLeast(less, n + 1);
    }
  }

  lemma OneChanged(s: State, s': State, id: Id, n: nat)
    requires Structure(s) && |s.tracked| <= n && id in s.reqs && id in s'.reqs
    requires s'.tracked == s.tracked && s'.reqs == s.reqs[id := s'.reqs[id]]
    requires Work(s'.reqs[id]) < Work(s.reqs[id])
             || (Work(s'.reqs[id]) == Work(s.reqs[id]) && s.reqs[id].status.Woken? && !s'.reqs[id].status.Woken?)
    ensures Remaining(s', n) < Remaining(s, n)
  {
    TotalChanged(s.tracked, s.reqs, id, s'.reqs[id], Work);
    TotalChanged(s.tracked, s.reqs, id, s'.reqs[id], IsWoken);
    WokenAtMost(s'.tracked, s'.reqs);
    WorkDecreases(s, s', n, Work(s.reqs[id]) - Work(s'.reqs[id]));
  }

  lemma StepMakesProgress(s: State, step: Step, n: nat)
    requires Inv(s) == true && Enabled(s, step) && !step.Arrive? && |s.tracked| <= n
    ensures |Next(s, step).tracked| <= n && Remaining(Next(s, step), n) < Remaining(s, n)
  {
    match step
    case Resume(id) =>
      ResumeProgress(s, id, n);
    case Transfer(id) =>
      TransferProgress(s, id, n);
    case Continue(id) =>
      if s.reqs[id].NextPhase().None? {
        EndProgress(s, id, n);
      } else {
        ContinueProgress(s, id, n);
      }
  }

  lemma ResumeProgress(s: State, id: Id, n: nat)
    requires Structure(s) == true && id in s.reqs && s.reqs[id].status == Woken && |s.tracked| <= n
    ensures |Scan(s, id).tracked| <= n && Remaining(Scan(s, id), n) < Remaining(s, n)
  {
    OneChanged(s, Scan(s, id), id, n);
  }

  lemma TransferProgress(s: State, id: Id, n: nat)
    requires Structure(s) == true && id in s.reqs && s.reqs[id].status == Issued && Ready(s.reqs[id]) && |s.tracked| <= n
    ensures |Transferred(s, id).tracked| <= n && Remaining(Transferred(s, id), n) < Remaining(s, n)
  {
    OneChanged(s, Transferred(s, id), id, n);
  }

  lemma ContinueProgress(s: State, id: Id, n: nat)
    requires Inv(s) == true && id in s.reqs && s.reqs[id].status == Moved && Ready(s.reqs[id]) && |s.tracked| <= n
    requires s.reqs[id].NextPhase().Some?
    ensures |Continued(s, id).tracked| <= n && Remaining(Continued(s, id), n) < Remaining(s, n)
  {
    LaterWaitsPass(s, id);
    assert Structure(s);
    OneChanged(s, Continued(s, id), id, n);
  }

  lemma EndProgress(s: State, id: Id, n: nat)
    requires Structure(s) == true && id in s.reqs && s.reqs[id].status == Moved && |s.tracked| <= n
    ensures |EndRequest(s, id).tracked| <= n && Remaining(EndRequest(s, id), n) < Remaining(s, n)
  {
    var s' := EndRequest(s, id);
    TotalRemoved(s.tracked, s.reqs, id, Work);
    TotalSame(s'.tracked, s.reqs, s'.reqs, Work);
    WokenAtMost(s'.tracked, s'.reqs);
    WorkDecreases(s, s', n, Work(s.reqs[id]));
  }

  /** Without new arrivals every run is bounded. */
  lemma {:induction false} RunsAreBounded(s: State, steps: seq<Step>, n: nat)
    requires Inv(s) == true && Schedulable(s, steps) && |s.tracked| <= n
    requires forall i :: 0 <= i < |steps| ==> !steps[i].Arrive?
    ensures |steps| <= Remaining(s, n)
    decreases |steps|
  {
    if |steps| > 0 {
      StepKeepsInv(s, steps[0]);
      StepMakesProgress(s, steps[0], n);
      RunsAreBounded(Next(s, steps[0]), steps[1..], n);
    }
  }

  /** And a run that cannot be continued has completed every request. */
  lemma StuckMeansDone(disk: Disk, s: State)
    requires Reachable(disk, s)
    requires forall id :: id in s.reqs ==> !CanMove(s, id)
    ensures s.tracked == [] && s.reqs == map[]
  {
    NoDeadlock(disk, s);
    ReachableInv(disk, s);
    assert Structure(s);
    assert forall id :: id in s.reqs ==> id in s.tracked;
  }
}
