/** What becomes of each request of a run, in terms of what arrived: the steps alone, not the bookkeeping. */
module RequestRuns {
  import opened Bytes
  import opened RequestProtocol
  import opened RequestSafety
  import opened RequestTheorems

  /** The states before, between and after the steps of a run. */
  ghost predicate IsRun(ss: seq<State>, steps: seq<Step>)
  {
    |ss| == |steps| + 1 && forall n :: 0 <= n < |steps| ==> StepAt(ss, steps, n)
  }

  ghost predicate StepAt(ss: seq<State>, steps: seq<Step>, n: nat)
  {
    n < |steps| && n + 1 < |ss| && Enabled(ss[n], steps[n]) && ss[n + 1] == Next(ss[n], steps[n])
  }

  lemma {:induction false} AtInv(ss: seq<State>, steps: seq<Step>, n: nat)
    requires IsRun(ss, steps) == true && Inv(ss[0]) == true && n <= |steps|
    ensures Inv(ss[n]) == true
    decreases n
  {
    if n > 0 {
      AtInv(ss, steps, n - 1);
      assert StepAt(ss, steps, n - 1);
      StepKeepsInv(ss[n - 1], steps[n - 1]);
    }
  }

  /** The states of a schedule. */
  function Trace(s: State, steps: seq<Step>): (ss: seq<State>)
    requires Schedulable(s, steps)
    ensures |ss| == |steps| + 1 && ss[0] == s
    decreases |steps|
  {
    if |steps| == 0 then [s] else [s] + Trace(Next(s, steps[0]), steps[1..])
  }

  /** Every schedule is a run with the same end and the same writes. */
  lemma {:induction false} ScheduleIsRun(s: State, steps: seq<Step>)
    requires Schedulable(s, steps)
    ensures var ss := Trace(s, steps);
            IsRun(ss, steps) == true && ss[|steps|] == RequestTheorems.After(s, steps)
            && LogTo(ss, steps, |steps|) == WriteLog(s, steps)
    decreases |steps|
  {
    if |steps| > 0 {
      var t, rest := Next(s, steps[0]), steps[1..];
      ScheduleIsRun(t, rest);
      RunBehind(s, steps, Trace(t, rest));
      LogBehind(s, steps, Trace(t, rest), |rest|);
    }
  }

  lemma RunBehind(s: State, steps: seq<Step>, tt: seq<State>)
    requires |steps| > 0 && Enabled(s, steps[0]) && IsRun(tt, steps[1..]) && tt[0] == Next(s, steps[0])
    ensures IsRun([s] + tt, steps) == true
  {
    forall n | 0 <= n < |steps|
      ensures StepAt([s] + tt, steps, n)
    {
      if n > 0 {
        assert StepAt(tt, steps[1..], n - 1);
      }
    }
  }

  lemma {:induction false} LogBehind(s: State, steps: seq<Step>, tt: seq<State>, n: nat)
    requires |steps| > 0 && Enabled(s, steps[0]) && IsRun(tt, steps[1..]) == true && tt[0] == Next(s, steps[0])
    requires IsRun([s] + tt, steps) == true && n < |steps|
    ensures LogTo([s] + tt, steps, n + 1) == WriteOf(s, steps[0]) + LogTo(tt, steps[1..], n)
    decreases n
  {
    var ss, rest := [s] + tt, steps[1..];
    LogNext(ss, steps, n);
    if n == 0 {
      assert LogTo(ss, steps, 0) == [] && LogTo(tt, rest, 0) == [];
    } else {
      LogBehind(s, steps, tt, n - 1);
      LogNext(tt, rest, n - 1);
      SameWrite(ss[n], tt[n - 1], steps[n], rest[n - 1]);
      AppendBehind(LogTo(ss, steps, n), WriteOf(s, steps[0]), LogTo(tt, rest, n - 1), WriteOf(ss[n], steps[n]));
    }
  }

  lemma LogNext(ss: seq<State>, steps: seq<Step>, n: nat)
    requires IsRun(ss, steps) == true && n < |steps|
    ensures Enabled(ss[n], steps[n]) && LogTo(ss, steps, n + 1) == LogTo(ss, steps, n) + WriteOf(ss[n], steps[n])
  {
    assert StepAt(ss, steps, n);
  }

  lemma SameWrite(s: State, t: State, a: Step, b: Step)
    requires s == t && a == b && Enabled(s, a)
    ensures Enabled(t, b) && WriteOf(s, a) == WriteOf(t, b)
  {
  }

  lemma AppendBehind(a: seq<DiskWrite>, first: seq<DiskWrite>, b: seq<DiskWrite>, more: seq<DiskWrite>)
    requires a == first + b
    ensures a + more == first + (b + more)
  {
  }

  /** Step `i` brings a request that is tracked from then on until step `j - 1` ends it. */
  ghost predicate Life(ss: seq<State>, steps: seq<Step>, i: nat, j: nat)
    requires IsRun(ss, steps) == true
  {
    && i < j <= |steps| && steps[i].Arrive?
    && Tracked(ss, steps, i, j - 1) && steps[i].id !in ss[j].reqs
  }

  /** The request that step `i` brings is tracked up to the first `n` steps. */
  ghost predicate Tracked(ss: seq<State>, steps: seq<Step>, i: nat, n: nat)
    requires IsRun(ss, steps) == true && i < |steps| && n <= |steps| && steps[i].Arrive?
  {
    forall m :: i < m <= n ==> steps[i].id in ss[m].reqs
  }

  /** A request that arrived and is not tracked at the end has ended somewhere. */
  lemma {:induction false} GoneHasEnded(ss: seq<State>, steps: seq<Step>, i: nat, n: nat)
    requires IsRun(ss, steps) == true && i < n <= |steps| && steps[i].Arrive? && steps[i].id !in ss[n].reqs
    ensures exists j :: Life(ss, steps, i, j)
    decreases n
  {
    if !Tracked(ss, steps, i, n - 1) {
      var m :| i < m <= n - 1 && steps[i].id !in ss[m].reqs;
      GoneHasEnded(ss, steps, i, m);
    } else {
      assert Life(ss, steps, i, n);
    }
  }

  /** The I/O an arriving request asks for, in order. */
  function Plan(input: Input): seq<Phase>
    requires input.align > 0
  {
    match input.kind
    case Read => [DataRead]
    case CopyOnRead(_, copy) => if copy then [CopyRead, CopyWrite] else [DataRead]
    case Write(_) =>
      (if input.offset % input.align != 0 then [HeadRead] else [])
      + (if (input.offset + input.bytes) % input.align != 0 then [TailRead] else [])
      + [DataWrite]
  }

  /** The I/O that is done for `id` by the steps from `i` to `n`. */
  function Phases(ss: seq<State>, steps: seq<Step>, id: Id, i: nat, n: nat): seq<Phase>
    requires IsRun(ss, steps) == true && i <= n <= |steps|
    decreases n
  {
    if n == i then []
    else
      assert StepAt(ss, steps, n - 1);
      Phases(ss, steps, id, i, n - 1) + if steps[n - 1] == Transfer(id) then [ss[n - 1].reqs[id].phase] else []
  }

  // ----- what a request has still to do -----

  /** The request is the one that arrived with `input`. */
  predicate Serves(r: Request, input: Input)
  {
    && input.Valid() && r.kind == input.kind && r.align == input.align
    && if input.kind.Write? then r.offset == input.offset && r.bytes == input.bytes
       else r.offset == RoundDown(input.offset, input.align) && r.End() == Ceil(input.offset + input.bytes, input.align)
  }

  function Following(r: Request): seq<Phase>
    requires r.align > 0
  {
    match r.phase
    case HeadRead => if r.TailUnaligned() then [TailRead, DataWrite] else [DataWrite]
    case TailRead => [DataWrite]
    case CopyRead => [CopyWrite]
    case _ => []
  }

  function Rest(r: Request): seq<Phase>
    requires r.align > 0
  {
    (if r.status.Moved? then [] else [r.phase]) + Following(r)
  }

  /** Two records of one request that differ only in where its coroutine is suspended and in its window. */
  predicate SameWork(r: Request, q: Request)
  {
    && q.kind == r.kind && q.align == r.align && q.offset == r.offset && q.bytes == r.bytes
    && q.phase == r.phase && q.bounce == r.bounce && q.status.Moved? == r.status.Moved?
  }

  lemma SameWorkSameRest(r: Request, q: Request, input: Input)
    requires SameWork(r, q) && r.align > 0
    ensures Rest(q) == Rest(r) && (Serves(r, input) ==> Serves(q, input))
  {
  }

  lemma ScanIsNoWork(s: State, id: Id)
    requires id in s.reqs && !s.reqs[id].status.Moved?
    ensures Scan(s, id).reqs.Keys == s.reqs.Keys && SameWork(s.reqs[id], Scan(s, id).reqs[id])
    ensures forall x :: x in s.reqs && x != id ==> Scan(s, id).reqs[x] == s.reqs[x]
  {
  }

  lemma EndIsNoWork(s: State, id: Id, x: Id)
    requires id in s.reqs && x in s.reqs && x != id
    ensures x in EndRequest(s, id).reqs && SameWork(s.reqs[x], EndRequest(s, id).reqs[x])
  {
  }

  lemma NewRequestPlan(input: Input)
    requires input.Valid()
    ensures var r := input.Request(); Serves(r, input) && Rest(r) == Plan(input) && r.status == Issued
  {
    assert RoundDown(input.offset, input.align) <= input.offset <= input.offset + input.bytes
           <= Ceil(input.offset + input.bytes, input.align);
  }

  lemma ArrivesWithPlan(s: State, id: Id, input: Input)
    requires id !in s.reqs && input.Valid()
    ensures id in Arrival(s, id, input).reqs
    ensures var r := Arrival(s, id, input).reqs[id]; Serves(r, input) && Rest(r) == Plan(input)
  {
    var r := input.Request();
    NewRequestPlan(input);
    var begun := Begin(s, id, r);
    var t := if r.MustSerialise() then Mark(begun, id) else begun;
    ScanIsNoWork(t, id);
    assert SameWork(r, t.reqs[id]);
    SameWorkSameRest(r, t.reqs[id], input);
    SameWorkSameRest(t.reqs[id], Scan(t, id).reqs[id], input);
  }

  /** Another request's step changes at most whether `x` waits. */
  lemma OthersAreNoWork(s: State, step: Step, x: Id)
    requires Inv(s) == true && Enabled(s, step) && x in s.reqs && step.id != x
    ensures x in Next(s, step).reqs && SameWork(s.reqs[x], Next(s, step).reqs[x])
  {
    match step
    case Arrive(id, input) => ArrivalLeavesOthers(s, id, input);
    case Resume(id) => ScanIsNoWork(s, id);
    case Transfer(id) =>
    case Continue(id) => ContinueIsNoWork(s, id, x);
  }

  lemma ArrivalLeavesOthers(s: State, id: Id, input: Input)
    requires id !in s.reqs && input.Valid()
    ensures forall x :: x in Arrival(s, id, input).reqs <==> x in s.reqs || x == id
    ensures forall x :: x in s.reqs ==> Arrival(s, id, input).reqs[x] == s.reqs[x]
  {
    var begun := Begin(s, id, input.Request());
    ScanIsNoWork(if input.Request().MustSerialise() then Mark(begun, id) else begun, id);
  }

  lemma ContinueIsNoWork(s: State, id: Id, x: Id)
    requires Inv(s) == true && id in s.reqs && s.reqs[id].status == Moved && Ready(s.reqs[id]) && x in s.reqs && x != id
    ensures x in Continued(s, id).reqs && SameWork(s.reqs[x], Continued(s, id).reqs[x])
  {
    if s.reqs[id].NextPhase().None? {
      EndIsNoWork(s, id, x);
    } else {
      LaterWaitsPass(s, id);
    }
  }

  lemma OthersKeepRest(s: State, step: Step, x: Id, input: Input)
    requires Inv(s) == true && Enabled(s, step) && x in s.reqs && step.id != x && Serves(s.reqs[x], input)
    ensures x in Next(s, step).reqs && Serves(Next(s, step).reqs[x], input)
    ensures Rest(Next(s, step).reqs[x]) == Rest(s.reqs[x]) && Next(s, step).reqs[x].bounce == s.reqs[x].bounce
  {
    OthersAreNoWork(s, step, x);
    SameWorkSameRest(s.reqs[x], Next(s, step).reqs[x], input);
  }

  /** A request's own step: what is done and what is left make up what was left before. */
  lemma OwnStepKeepsRest(s: State, step: Step, input: Input)
    requires Inv(s) == true && Enabled(s, step) && step.id in s.reqs && Serves(s.reqs[step.id], input)
    ensures var id, s' := step.id, Next(s, step);
            var done := if step.Transfer? then [s.reqs[id].phase] else [];
            && (id in s'.reqs ==> Serves(s'.reqs[id], input) && done + Rest(s'.reqs[id]) == Rest(s.reqs[id]))
            && (id !in s'.reqs ==> step.Continue? && Rest(s.reqs[id]) == [])
  {
    match step
    case Resume(id) =>
      ScanIsNoWork(s, id);
      SameWorkSameRest(s.reqs[id], Scan(s, id).reqs[id], input);
    case Transfer(id) => TransferDoesPhase(s, id, input);
    case Continue(id) => ContinueGoesOn(s, id, input);
  }

  lemma TransferDoesPhase(s: State, id: Id, input: Input)
    requires id in s.reqs && s.reqs[id].status == Issued && Ready(s.reqs[id]) && Serves(s.reqs[id], input)
    ensures id in Transferred(s, id).reqs && Serves(Transferred(s, id).reqs[id], input)
    ensures [s.reqs[id].phase] + Rest(Transferred(s, id).reqs[id]) == Rest(s.reqs[id])
  {
    var r := Transferred(s, id).reqs[id];
    assert Following(r) == Following(s.reqs[id]);
    assert [s.reqs[id].phase] + ([] + Following(r)) == [s.reqs[id].phase] + Following(r);
  }

  lemma ContinueGoesOn(s: State, id: Id, input: Input)
    requires Inv(s) == true && id in s.reqs && s.reqs[id].status == Moved && Ready(s.reqs[id]) && Serves(s.reqs[id], input)
    ensures id in Continued(s, id).reqs ==>
              Serves(Continued(s, id).reqs[id], input) && Rest(Continued(s, id).reqs[id]) == Rest(s.reqs[id])
    ensures id !in Continued(s, id).reqs ==> Rest(s.reqs[id]) == []
  {
    assert Good(s.disk, s.reqs[id]) by {
      assert Structure(s);
    }
    if s.reqs[id].NextPhase().Some? {
      LaterWaitsPass(s, id);
      NextIsRest(s.reqs[id]);
    }
  }

  lemma NextIsRest(r: Request)
    requires r.align > 0 && r.status == Moved && r.NextPhase().Some?
    ensures Rest(RequestSafety.Advanced(r)) == Rest(r)
  {
  }

  // ----- every request is served as it arrived -----

  /** While a request is tracked, what has been done for it and what is left make up its plan. */
  lemma {:induction false} ServedAlong(ss: seq<State>, steps: seq<Step>, i: nat, n: nat)
    requires IsRun(ss, steps) == true && Inv(ss[0]) == true && i < n <= |steps| && steps[i].Arrive?
    requires Tracked(ss, steps, i, n) == true
    ensures ServedSoFar(ss, steps, i, n) == true
    ensures steps[i].id in ss[n].reqs && Serves(ss[n].reqs[steps[i].id], steps[i].input)
    ensures Phases(ss, steps, steps[i].id, i, n) + Rest(ss[n].reqs[steps[i].id]) == Plan(steps[i].input)
    decreases n
  {
    assert Tracked(ss, steps, i, n);
    if n == i + 1 {
      ServedFirst(ss, steps, i);
    } else {
      assert Tracked(ss, steps, i, n - 1);
      ServedAlong(ss, steps, i, n - 1);
      OneMoreStep(ss, steps, i, n - 1);
    }
    assert ServedSoFar(ss, steps, i, n);
  }

  ghost predicate ServedSoFar(ss: seq<State>, steps: seq<Step>, i: nat, n: nat)
    requires IsRun(ss, steps) == true && i <= n <= |steps| && i < |steps| && steps[i].Arrive?
  {
    && steps[i].id in ss[n].reqs && Serves(ss[n].reqs[steps[i].id], steps[i].input)
    && Phases(ss, steps, steps[i].id, i, n) + Rest(ss[n].reqs[steps[i].id]) == Plan(steps[i].input)
  }

  lemma ServedFirst(ss: seq<State>, steps: seq<Step>, i: nat)
    requires IsRun(ss, steps) == true && i < |steps| && steps[i].Arrive?
    ensures ServedSoFar(ss, steps, i, i + 1) == true
  {
    assert StepAt(ss, steps, i);
    ArrivesWithPlan(ss[i], steps[i].id, steps[i].input);
    assert Phases(ss, steps, steps[i].id, i, i) == [];
    assert Phases(ss, steps, steps[i].id, i, i + 1) == [];
    var rest := Rest(ss[i + 1].reqs[steps[i].id]);
    assert [] + rest == rest;
  }

  lemma OneMoreStep(ss: seq<State>, steps: seq<Step>, i: nat, n: nat)
    requires IsRun(ss, steps) == true && Inv(ss[0]) == true && i < n < |steps| && steps[i].Arrive?
    requires ServedSoFar(ss, steps, i, n) == true
    ensures steps[i].id in ss[n + 1].reqs ==> ServedSoFar(ss, steps, i, n + 1) == true
    ensures steps[i].id !in ss[n + 1].reqs ==> Phases(ss, steps, steps[i].id, i, n + 1) == Plan(steps[i].input)
  {
    var id, input, t := steps[i].id, steps[i].input, ss[n];
    assert ServedSoFar(ss, steps, i, n);
    assert StepAt(ss, steps, n);
    AtInv(ss, steps, n);
    if steps[n].id == id {
      OwnStepKeepsRest(t, steps[n], input);
    } else {
      OthersKeepRest(t, steps[n], id, input);
    }
    AddPhases(Phases(ss, steps, id, i, n), if steps[n] == Transfer(id) then [t.reqs[id].phase] else [], Rest(t.reqs[id]));
  }

  lemma AddPhases(a: seq<Phase>, b: seq<Phase>, rest: seq<Phase>)
    ensures forall c: seq<Phase> :: b + c == rest ==> a + b + c == a + rest
  {
    forall c: seq<Phase> | b + c == rest
      ensures a + b + c == a + rest
    {
      assert a + b + c == a + (b + c);
    }
  }

  /** From its arrival to its end exactly the I/O of its plan is done for a request, in that order. */
  lemma CompletedAsPlanned(ss: seq<State>, steps: seq<Step>, i: nat, j: nat)
    requires IsRun(ss, steps) == true && Inv(ss[0]) == true && Life(ss, steps, i, j)
    ensures steps[i].input.Valid() && Phases(ss, steps, steps[i].id, i, j) == Plan(steps[i].input)
  {
    NotEndedAtOnce(ss, steps, i, j);
    ServedAlong(ss, steps, i, j - 1);
    OneMoreStep(ss, steps, i, j - 1);
  }

  lemma NotEndedAtOnce(ss: seq<State>, steps: seq<Step>, i: nat, j: nat)
    requires IsRun(ss, steps) == true && Life(ss, steps, i, j)
    ensures i + 1 < j && Tracked(ss, steps, i, j - 1) == true
  {
    ServedFirst(ss, steps, i);
    assert ServedSoFar(ss, steps, i, i + 1);
  }

  // ----- the step that does one part of the I/O -----

  /** Step `m` does the I/O `p` for `id`. */
  predicate Does(ss: seq<State>, steps: seq<Step>, id: Id, p: Phase, m: nat)
    requires IsRun(ss, steps) == true && m < |steps|
  {
    assert StepAt(ss, steps, m);
    steps[m] == Transfer(id) && ss[m].reqs[id].phase == p
  }

  /** Between the steps `i` and `j` exactly one does the I/O `p` for `id`, and that is step `m`. */
  ghost predicate DoneOnce(ss: seq<State>, steps: seq<Step>, id: Id, p: Phase, i: nat, m: nat, j: nat)
    requires IsRun(ss, steps) == true
  {
    i <= m < j <= |steps| && forall n :: i <= n < j ==> (Does(ss, steps, id, p, n) <==> n == m)
  }

  function Times(ps: seq<Phase>, p: Phase): nat
  {
    if |ps| == 0 then 0 else Times(ps[..|ps| - 1], p) + if ps[|ps| - 1] == p then 1 else 0
  }

  lemma TimesAdds(ps: seq<Phase>, more: seq<Phase>, p: Phase)
    requires |more| <= 1
    ensures Times(ps + more, p) == Times(ps, p) + if more == [p] then 1 else 0
  {
    if more == [] {
      assert ps + more == ps;
    } else {
      assert (ps + more)[..|ps + more| - 1] == ps;
    }
  }

  lemma TimesNext(ss: seq<State>, steps: seq<Step>, id: Id, p: Phase, i: nat, n: nat)
    requires IsRun(ss, steps) == true && i <= n < |steps|
    ensures Times(Phases(ss, steps, id, i, n + 1), p)
            == Times(Phases(ss, steps, id, i, n), p) + if Does(ss, steps, id, p, n) then 1 else 0
  {
    assert StepAt(ss, steps, n);
    TimesAdds(Phases(ss, steps, id, i, n), if steps[n] == Transfer(id) then [ss[n].reqs[id].phase] else [], p);
  }

  ghost predicate NeverDone(ss: seq<State>, steps: seq<Step>, id: Id, p: Phase, i: nat, n: nat)
    requires IsRun(ss, steps) == true && n <= |steps|
  {
    forall m :: i <= m < n ==> !Does(ss, steps, id, p, m)
  }

  /** I/O that occurs once among what is done is done by one step. */
  lemma {:induction false} OnceMeansOneStep(ss: seq<State>, steps: seq<Step>, id: Id, p: Phase, i: nat, n: nat)
    requires IsRun(ss, steps) == true && i <= n <= |steps| && Times(Phases(ss, steps, id, i, n), p) <= 1
    ensures Times(Phases(ss, steps, id, i, n), p) == 0 ==> NeverDone(ss, steps, id, p, i, n) == true
    ensures Times(Phases(ss, steps, id, i, n), p) == 1 ==> exists m: nat :: DoneOnce(ss, steps, id, p, i, m, n) == true
    decreases n
  {
    if n > i {
      TimesNext(ss, steps, id, p, i, n - 1);
      OnceMeansOneStep(ss, steps, id, p, i, n - 1);
      if Does(ss, steps, id, p, n - 1) {
        DoneLast(ss, steps, id, p, i, n);
      } else if Times(Phases(ss, steps, id, i, n), p) == 1 {
        var m: nat :| DoneOnce(ss, steps, id, p, i, m, n - 1);
        DoneBefore(ss, steps, id, p, i, m, n);
      } else {
        assert NeverDone(ss, steps, id, p, i, n - 1);
        assert NeverDone(ss, steps, id, p, i, n);
      }
    }
  }

  lemma DoneLast(ss: seq<State>, steps: seq<Step>, id: Id, p: Phase, i: nat, n: nat)
    requires IsRun(ss, steps) == true && i < n <= |steps| && NeverDone(ss, steps, id, p, i, n - 1) && Does(ss, steps, id, p, n - 1)
    ensures DoneOnce(ss, steps, id, p, i, n - 1, n) == true
  {
    assert DoneOnce(ss, steps, id, p, i, n - 1, n);
  }

  lemma DoneBefore(ss: seq<State>, steps: seq<Step>, id: Id, p: Phase, i: nat, m: nat, n: nat)
    requires IsRun(ss, steps) == true && i < n <= |steps| && DoneOnce(ss, steps, id, p, i, m, n - 1) && !Does(ss, steps, id, p, n - 1)
    ensures DoneOnce(ss, steps, id, p, i, m, n) == true
  {
    assert DoneOnce(ss, steps, id, p, i, m, n);
  }

  lemma PlanTimes(input: Input)
    requires input.align > 0
    ensures Times(Plan(input), DataWrite) == if input.kind.Write? then 1 else 0
    ensures Times(Plan(input), CopyRead) == Times(Plan(input), CopyWrite)
            == if input.kind.CopyOnRead? && input.kind.copy then 1 else 0
    ensures Times(Plan(input), DataRead)
            == if input.kind.Read? || (input.kind.CopyOnRead? && !input.kind.copy) then 1 else 0
  {
    forall p: Phase
      ensures Times(Plan(input), p) == OrderlessTimes(Plan(input), p)
    {
      TimesOfFew(Plan(input), p);
    }
  }

  function OrderlessTimes(ps: seq<Phase>, p: Phase): nat
    requires 0 < |ps| <= 3
  {
    (if ps[0] == p then 1 else 0) + (if |ps| > 1 && ps[1] == p then 1 else 0) + if |ps| > 2 && ps[2] == p then 1 else 0
  }

  lemma TimesOfFew(ps: seq<Phase>, p: Phase)
    requires 0 < |ps| <= 3
    ensures Times(ps, p) == OrderlessTimes(ps, p)
  {
    var a := ps[..|ps| - 1];
    if |ps| == 1 {
      assert a == [];
    } else if |ps| == 2 {
      assert a[..0] == [];
    } else {
      var b := a[..1];
      assert a[..|a| - 1] == b && b[..0] == [];
    }
  }

  // ----- the log of the device's writes -----

  /** What the first `n` steps write to the device, in order. */
  function LogTo(ss: seq<State>, steps: seq<Step>, n: nat): seq<DiskWrite>
    requires IsRun(ss, steps) == true && n <= |steps|
    decreases n
  {
    if n == 0 then []
    else
      assert StepAt(ss, steps, n - 1);
      LogTo(ss, steps, n - 1) + WriteOf(ss[n - 1], steps[n - 1])
  }

  lemma {:induction false} LogGrows(ss: seq<State>, steps: seq<Step>, m: nat, n: nat)
    requires IsRun(ss, steps) == true && m <= n <= |steps|
    ensures LogTo(ss, steps, m) <= LogTo(ss, steps, n)
    decreases n
  {
    if m < n {
      LogGrows(ss, steps, m, n - 1);
    }
  }

  /** The entry that step `m` makes in the whole log. */
  ghost predicate Logged(ss: seq<State>, steps: seq<Step>, m: nat, w: DiskWrite)
    requires IsRun(ss, steps) == true && m < |steps|
  {
    var at := |LogTo(ss, steps, m)|;
    && at < |LogTo(ss, steps, |steps|)| && LogTo(ss, steps, |steps|)[at] == w
    && LogTo(ss, steps, m + 1) == LogTo(ss, steps, m) + [w]
  }

  lemma StepIsLogged(ss: seq<State>, steps: seq<Step>, m: nat)
    requires IsRun(ss, steps) == true && m < |steps| && Enabled(ss[m], steps[m])
    requires |WriteOf(ss[m], steps[m])| == 1
    ensures Logged(ss, steps, m, WriteOf(ss[m], steps[m])[0])
  {
    LogGrows(ss, steps, m + 1, |steps|);
    var w := WriteOf(ss[m], steps[m]);
    assert w == [w[0]];
    assert LogTo(ss, steps, m + 1) == LogTo(ss, steps, m) + w;
    assert LogTo(ss, steps, m + 1)[|LogTo(ss, steps, m)|] == w[0];
  }

  // ----- the results -----

  /**
   * A guest write that has ended has been stored exactly once, between its arrival and its end: one
   * step does it, and makes one entry in the log, with the offset and the data that arrived.
   */
  lemma CompletedWriteIsStored(disk: Disk, ss: seq<State>, steps: seq<Step>, i: nat, j: nat)
    requires IsRun(ss, steps) == true && ss[0] == Initial(disk) && Life(ss, steps, i, j) && steps[i].input.kind.Write?
    ensures exists m: nat :: DoneOnce(ss, steps, steps[i].id, DataWrite, i, m, j) && i < m < j - 1
                        && Logged(ss, steps, m, DiskWrite(steps[i].input.offset, steps[i].input.kind.data))
  {
    var id, input := steps[i].id, steps[i].input;
    InitialInv(disk);
    CompletedAsPlanned(ss, steps, i, j);
    PlanTimes(input);
    OnceMeansOneStep(ss, steps, id, DataWrite, i, j);
    var m :| DoneOnce(ss, steps, id, DataWrite, i, m, j);
    assert Does(ss, steps, id, DataWrite, m);
    WithinLife(ss, steps, i, j, m);
    ServedAlong(ss, steps, i, m);
    assert StepAt(ss, steps, m);
    StepIsLogged(ss, steps, m);
  }

  /** A transfer of a request is neither its arrival nor its end. */
  lemma WithinLife(ss: seq<State>, steps: seq<Step>, i: nat, j: nat, m: nat)
    requires IsRun(ss, steps) == true && Inv(ss[0]) == true && Life(ss, steps, i, j) && i <= m < j && steps[m] == Transfer(steps[i].id)
    ensures i < m < j - 1 && Tracked(ss, steps, i, m)
  {
    assert StepAt(ss, steps, m);
  }

  /** Nothing else is in the log: each step that writes does so for a write that arrived and is tracked since. */
  lemma EveryEntryArrived(disk: Disk, ss: seq<State>, steps: seq<Step>, m: nat)
    requires IsRun(ss, steps) == true && ss[0] == Initial(disk) && m < |steps|
    requires LogTo(ss, steps, m + 1) != LogTo(ss, steps, m)
    ensures exists i: nat :: TrackedSince(ss, steps, steps[m].id, i, m) && steps[m].Transfer? && steps[i].input.kind.Write?
                        && Logged(ss, steps, m, DiskWrite(steps[i].input.offset, steps[i].input.kind.data))
  {
    InitialInv(disk);
    assert StepAt(ss, steps, m);
    AtInv(ss, steps, m);
    var id := steps[m].id;
    TrackedHasArrived(disk, ss, steps, m, id);
    var i: nat :| TrackedSince(ss, steps, id, i, m);
    ServedAlong(ss, steps, i, m);
    assert Good(ss[m].disk, ss[m].reqs[id]) by {
      assert Structure(ss[m]);
    }
    StepIsLogged(ss, steps, m);
  }

  /** Request `id` arrived with step `i` and is tracked since. */
  ghost predicate TrackedSince(ss: seq<State>, steps: seq<Step>, id: Id, i: nat, m: nat)
    requires IsRun(ss, steps) == true && m <= |steps|
  {
    i < m && steps[i].Arrive? && steps[i].id == id && Tracked(ss, steps, i, m)
  }

  lemma {:induction false} TrackedHasArrived(disk: Disk, ss: seq<State>, steps: seq<Step>, m: nat, id: Id)
    requires IsRun(ss, steps) == true && ss[0] == Initial(disk) && m <= |steps| && id in ss[m].reqs
    ensures exists i: nat :: TrackedSince(ss, steps, id, i, m)
    decreases m
  {
    if m > 0 {
      InitialInv(disk);
      AppearsOrStays(ss, steps, m - 1, id);
      if steps[m - 1].Arrive? && steps[m - 1].id == id {
        assert TrackedSince(ss, steps, id, m - 1, m);
      } else {
        TrackedHasArrived(disk, ss, steps, m - 1, id);
        var i: nat :| TrackedSince(ss, steps, id, i, m - 1);
        assert TrackedSince(ss, steps, id, i, m);
      }
    }
  }

  lemma AppearsOrStays(ss: seq<State>, steps: seq<Step>, m: nat, id: Id)
    requires IsRun(ss, steps) == true && Inv(ss[0]) == true && m < |steps| && id in ss[m + 1].reqs
    ensures (steps[m].Arrive? && steps[m].id == id) || id in ss[m].reqs
  {
    assert StepAt(ss, steps, m);
    AtInv(ss, steps, m);
    if !(steps[m].Arrive? && steps[m].id == id) {
      OnlyArrivalsAppear(ss[m], steps[m], id);
    }
  }

  lemma OnlyArrivalsAppear(s: State, step: Step, id: Id)
    requires Inv(s) == true && Enabled(s, step) && id in Next(s, step).reqs && !(step.Arrive? && step.id == id)
    ensures id in s.reqs
  {
    match step
    case Arrive(x, input) => ArrivalLeavesOthers(s, x, input);
    case Resume(x) => ScanIsNoWork(s, x);
    case Transfer(x) =>
    case Continue(x) =>
      if s.reqs[x].NextPhase().Some? {
        LaterWaitsPass(s, x);
      }
  }

  /**
   * A guest read that has ended has read once, and holds what the device held then for every byte
   * asked for. If it was to be copied, what it read has been written back once, after that.
   */
  lemma CompletedReadIsServed(disk: Disk, ss: seq<State>, steps: seq<Step>, i: nat, j: nat)
    requires IsRun(ss, steps) == true && ss[0] == Initial(disk) && Life(ss, steps, i, j) && !steps[i].input.kind.Write?
    ensures exists m: nat ::
              && i < m < j - 1
              && DoneOnce(ss, steps, steps[i].id, if Copies(steps[i].input) then CopyRead else DataRead, i, m, j)
              && Answered(ss[m].disk, ss[j - 1], steps[i].id, steps[i].input)
              && (Copies(steps[i].input) ==> exists n: nat ::
                    m < n < j - 1 && DoneOnce(ss, steps, steps[i].id, CopyWrite, i, n, j))
  {
    var id, input := steps[i].id, steps[i].input;
    InitialInv(disk);
    CompletedAsPlanned(ss, steps, i, j);
    PlanTimes(input);
    var p := if Copies(input) then CopyRead else DataRead;
    OnceMeansOneStep(ss, steps, id, p, i, j);
    var m :| DoneOnce(ss, steps, id, p, i, m, j);
    assert Does(ss, steps, id, p, m);
    WithinLife(ss, steps, i, j, m);
    ReadArrives(ss, steps, i, m);
    AnswerStays(ss, steps, i, j, m, j - 1);
    if Copies(input) {
      OnceMeansOneStep(ss, steps, id, CopyWrite, i, j);
      var n :| DoneOnce(ss, steps, id, CopyWrite, i, n, j);
      assert Does(ss, steps, id, CopyWrite, n);
      WithinLife(ss, steps, i, j, n);
      CopyWriteComesLater(ss, steps, i, m, n);
    }
  }

  predicate Copies(input: Input) { input.kind.CopyOnRead? && input.kind.copy }

  /** The request holds what `d` holds for every byte that was asked for. */
  ghost predicate Answered(d: Disk, s: State, id: Id, input: Input)
  {
    id in s.reqs && exists from: nat ::
      from <= input.offset && input.offset + input.bytes <= from + |s.reqs[id].bounce|
      && Holds(d, from, |s.reqs[id].bounce|, s.reqs[id].bounce)
  }

  lemma ReadArrives(ss: seq<State>, steps: seq<Step>, i: nat, m: nat)
    requires IsRun(ss, steps) == true && Inv(ss[0]) == true && i < m < |steps| && steps[i].Arrive? && Tracked(ss, steps, i, m)
    requires Does(ss, steps, steps[i].id, DataRead, m) || Does(ss, steps, steps[i].id, CopyRead, m)
    ensures Answered(ss[m].disk, ss[m + 1], steps[i].id, steps[i].input)
  {
    assert StepAt(ss, steps, m);
    ServedAlong(ss, steps, i, m);
    TransferAnswers(ss[m], steps[i].id, steps[i].input);
  }

  lemma TransferAnswers(s: State, id: Id, input: Input)
    requires id in s.reqs && s.reqs[id].status == Issued && Ready(s.reqs[id]) && Serves(s.reqs[id], input)
    requires s.reqs[id].phase == DataRead || s.reqs[id].phase == CopyRead
    ensures Answered(s.disk, Transferred(s, id), id, input)
  {
    var r := s.reqs[id];
    RangeCovered(r, input);
    var from := if r.phase == DataRead then r.offset else RoundDown(r.offset, r.Unit());
    var bounce := Transferred(s, id).reqs[id].bounce;
    assert Holds(s.disk, from, |bounce|, bounce);
  }

  lemma RangeCovered(r: Request, input: Input)
    requires Serves(r, input) && r.Unit() > 0
    ensures r.offset <= input.offset && input.offset + input.bytes <= r.End()
    ensures RoundDown(r.offset, r.Unit()) <= input.offset && input.offset + input.bytes <= Ceil(r.End(), r.Unit())
  {
  }

  /** What has been read stays in the request: no later step of it reads again. */
  lemma {:induction false} AnswerStays(ss: seq<State>, steps: seq<Step>, i: nat, j: nat, m: nat, n: nat)
    requires IsRun(ss, steps) == true && Inv(ss[0]) == true && Life(ss, steps, i, j) && i < m < n < j
    requires Answered(ss[m].disk, ss[m + 1], steps[i].id, steps[i].input)
    requires DoneOnce(ss, steps, steps[i].id, DataRead, i, m, j) || DoneOnce(ss, steps, steps[i].id, CopyRead, i, m, j)
    ensures Answered(ss[m].disk, ss[n], steps[i].id, steps[i].input)
    decreases n
  {
    if n > m + 1 {
      AnswerStays(ss, steps, i, j, m, n - 1);
      ReadsOnlyOnce(ss, steps, i, j, m, n - 1);
      assert StepAt(ss, steps, n - 1);
      AtInv(ss, steps, n - 1);
      BounceKept(ss[n - 1], steps[n - 1], steps[i].id);
    }
  }

  lemma ReadsOnlyOnce(ss: seq<State>, steps: seq<Step>, i: nat, j: nat, m: nat, n: nat)
    requires IsRun(ss, steps) == true && Inv(ss[0]) == true && Life(ss, steps, i, j) && i < m < n < j
    requires DoneOnce(ss, steps, steps[i].id, DataRead, i, m, j) || DoneOnce(ss, steps, steps[i].id, CopyRead, i, m, j)
    ensures !Does(ss, steps, steps[i].id, DataRead, n) && !Does(ss, steps, steps[i].id, CopyRead, n)
  {
    var id, input := steps[i].id, steps[i].input;
    CompletedAsPlanned(ss, steps, i, j);
    PlanTimes(input);
    OnceMeansOneStep(ss, steps, id, DataRead, i, j);
    OnceMeansOneStep(ss, steps, id, CopyRead, i, j);
    assert Does(ss, steps, id, DataRead, m) || Does(ss, steps, id, CopyRead, m);
  }

  lemma BounceKept(s: State, step: Step, id: Id)
    requires Inv(s) == true && Enabled(s, step) && id in s.reqs && id in Next(s, step).reqs
    requires step == Transfer(id) ==> s.reqs[id].phase != DataRead && s.reqs[id].phase != CopyRead
    ensures Next(s, step).reqs[id].bounce == s.reqs[id].bounce
  {
    if step.id != id {
      OthersAreNoWork(s, step, id);
    } else if step.Resume? {
      ScanIsNoWork(s, id);
    } else if step.Continue? && s.reqs[id].NextPhase().Some? {
      LaterWaitsPass(s, id);
    }
  }

  lemma CopyWriteComesLater(ss: seq<State>, steps: seq<Step>, i: nat, m: nat, n: nat)
    requires IsRun(ss, steps) == true && Inv(ss[0]) == true && i < m < |steps| && i < n < |steps| && steps[i].Arrive?
    requires Tracked(ss, steps, i, m) == true && Tracked(ss, steps, i, n) == true && Copies(steps[i].input)
    requires Does(ss, steps, steps[i].id, CopyRead, m) && Does(ss, steps, steps[i].id, CopyWrite, n)
    ensures m < n
  {
    var id := steps[i].id;
    ServedAlong(ss, steps, i, m);
    ServedAlong(ss, steps, i, n);
    assert StepAt(ss, steps, n) && StepAt(ss, steps, m);
    if n < m {
      PhasesGrow(ss, steps, id, i, n, m);
    }
  }

  lemma {:induction false} PhasesGrow(ss: seq<State>, steps: seq<Step>, id: Id, i: nat, m: nat, n: nat)
    requires IsRun(ss, steps) == true && i <= m <= n <= |steps|
    ensures Phases(ss, steps, id, i, m) <= Phases(ss, steps, id, i, n)
    decreases n
  {
    if m < n {
      PhasesGrow(ss, steps, id, i, m, n - 1);
    }
  }

  // ----- the driver sees whole blocks -----

  /** The bytes of the device that the I/O of a request's phase is about. */
  function IoFrom(r: Request): nat
    requires r.align > 0 && r.Unit() > 0
  {
    match r.phase
    case HeadRead => RoundDown(r.offset, r.align)
    case TailRead => RoundDown(r.End(), r.align)
    case DataWrite => RoundDown(r.offset, r.align)
    case DataRead => r.offset
    case _ => RoundDown(r.offset, r.Unit())
  }

  /** What it moves: the bytes read, or the bytes to be written. */
  function IoData(d: Disk, r: Request): seq<byte>
    requires r.status == Issued && Ready(r)
  {
    match r.phase
    case HeadRead => ReadDisk(d, IoFrom(r), r.align)
    case TailRead => ReadDisk(d, IoFrom(r), r.align)
    case DataWrite => r.Padded()
    case DataRead => ReadDisk(d, IoFrom(r), r.bytes)
    case CopyRead => ReadDisk(d, IoFrom(r), Ceil(r.End(), r.Unit()) - RoundDown(r.offset, r.Unit()))
    case CopyWrite => r.bounce
  }

  /** Every transfer is of whole blocks, or of whole clusters where it copies, and changes nothing outside them. */
  lemma TransfersAreAligned(disk: Disk, ss: seq<State>, steps: seq<Step>, m: nat)
    requires IsRun(ss, steps) == true && ss[0] == Initial(disk) && m < |steps| && steps[m].Transfer?
    ensures steps[m].id in ss[m].reqs
    ensures var d, r := ss[m].disk, ss[m].reqs[steps[m].id];
            && r.status == Issued && Ready(r)
            && (r.phase == CopyRead || r.phase == CopyWrite ==> r.kind.CopyOnRead? && r.kind.cluster > 0)
            && var unit := if r.phase == CopyRead || r.phase == CopyWrite then r.kind.cluster else r.align;
               && IoFrom(r) % unit == 0 && |IoData(d, r)| % unit == 0
               && forall k: nat :: !(IoFrom(r) <= k < IoFrom(r) + |IoData(d, r)|) ==>
                    Transferred(ss[m], steps[m].id).disk(k) == d(k)
  {
    var id := steps[m].id;
    InitialInv(disk);
    assert StepAt(ss, steps, m);
    AtInv(ss, steps, m);
    TrackedHasArrived(disk, ss, steps, m, id);
    var i: nat :| TrackedSince(ss, steps, id, i, m);
    ServedAlong(ss, steps, i, m);
    IoAligned(ss[m], id, steps[i].input);
  }

  lemma IoAligned(s: State, id: Id, input: Input)
    requires Inv(s) == true && id in s.reqs && s.reqs[id].status == Issued && Ready(s.reqs[id]) && Serves(s.reqs[id], input)
    ensures var r := s.reqs[id];
            r.phase == CopyRead || r.phase == CopyWrite ==> r.kind.CopyOnRead? && r.kind.cluster > 0
    ensures var r := s.reqs[id];
            var unit := if r.phase == CopyRead || r.phase == CopyWrite then r.kind.cluster else r.align;
            && IoFrom(r) % unit == 0 && |IoData(s.disk, r)| % unit == 0
            && forall k: nat :: !(IoFrom(r) <= k < IoFrom(r) + |IoData(s.disk, r)|) ==> Transferred(s, id).disk(k) == s.disk(k)
  {
    var r := s.reqs[id];
    assert Good(s.disk, r) by {
      assert Structure(s);
    }
    IoIsWhole(s.disk, r, input);
    IoChangesInside(s, id);
  }

  lemma IoIsWhole(d: Disk, r: Request, input: Input)
    requires Good(d, r) == true && r.status == Issued && Ready(r) && Serves(r, input)
    ensures r.phase == CopyRead || r.phase == CopyWrite ==> r.kind.CopyOnRead? && r.kind.cluster > 0
    ensures var unit := if r.phase == CopyRead || r.phase == CopyWrite then r.kind.cluster else r.align;
            IoFrom(r) % unit == 0 && |IoData(d, r)| % unit == 0
  {
    if r.phase == CopyRead || r.phase == CopyWrite {
      CopyIsWhole(d, r);
    } else if r.phase == DataWrite {
      WriteIsWhole(d, r);
    } else if r.phase == DataRead {
      ReadIsWhole(d, r, input);
    } else {
      BlockIsWhole(d, r);
    }
  }

  lemma CopyIsWhole(d: Disk, r: Request)
    requires Good(d, r) == true && r.status == Issued && Ready(r) && (r.phase == CopyRead || r.phase == CopyWrite)
    ensures r.kind.CopyOnRead? && r.kind.cluster > 0
    ensures IoFrom(r) % r.kind.cluster == 0 && |IoData(d, r)| % r.kind.cluster == 0
  {
    assert Good(d, r);
    assert RoundDown(r.offset, r.Unit()) <= r.offset <= r.End() <= Ceil(r.End(), r.Unit());
    MultiplesDiffer(RoundDown(r.offset, r.Unit()), Ceil(r.End(), r.Unit()), r.Unit());
  }

  lemma WriteIsWhole(d: Disk, r: Request)
    requires Good(d, r) == true && r.status == Issued && Ready(r) && r.phase == DataWrite
    ensures IoFrom(r) % r.align == 0 && |IoData(d, r)| % r.align == 0
  {
    assert Good(d, r);
    WriteInsideWindow(d, r);
    assert RoundDown(r.offset, r.align) <= r.offset <= r.End() <= Ceil(r.End(), r.align);
    MultiplesDiffer(RoundDown(r.offset, r.align), Ceil(r.End(), r.align), r.align);
  }

  lemma ReadIsWhole(d: Disk, r: Request, input: Input)
    requires Good(d, r) == true && r.status == Issued && Ready(r) && Serves(r, input) && r.phase == DataRead
    ensures IoFrom(r) % r.align == 0 && |IoData(d, r)| % r.align == 0
  {
    assert Good(d, r);
    MultiplesDiffer(r.offset, r.End(), r.align);
  }

  lemma BlockIsWhole(d: Disk, r: Request)
    requires r.status == Issued && Ready(r) && (r.phase == HeadRead || r.phase == TailRead)
    ensures IoFrom(r) % r.align == 0 && |IoData(d, r)| % r.align == 0
  {
    DivModUnique(r.align, r.align, 1, 0);
  }

  lemma IoChangesInside(s: State, id: Id)
    requires id in s.reqs && s.reqs[id].status == Issued && Ready(s.reqs[id])
    ensures var r := s.reqs[id];
            forall k: nat :: !(IoFrom(r) <= k < IoFrom(r) + |IoData(s.disk, r)|) ==> Transferred(s, id).disk(k) == s.disk(k)
  {
  }

  lemma MultiplesDiffer(x: nat, y: nat, a: nat)
    requires a > 0 && x <= y && x % a == 0 && y % a == 0
    ensures (y - x) % a == 0
  {
    var p, q := x / a, y / a;
    assert x == p * a && y == q * a;
    if q < p {
      MulMonotone(q + 1, p, a);
      Distribute(q, 1, a);
    }
    DivModUnique(y - x, a, q - p, 0);
  }

  // ----- the I/O of conflicting requests is not mixed -----

  /** A copying read, and a write that is not of whole blocks, must be alone. */
  predicate MustBeAlone(input: Input)
    requires input.align > 0
  {
    || input.kind.CopyOnRead?
    || (input.kind.Write? && (input.offset % input.align != 0 || (input.offset + input.bytes) % input.align != 0))
  }

  /** The bytes a request is about: whole blocks for a read, whole clusters of these for a copying one. */
  function RangeFrom(input: Input): nat
    requires input.Valid()
  {
    match input.kind
    case Read => RoundDown(input.offset, input.align)
    case CopyOnRead(cluster, _) => RoundDown(RoundDown(input.offset, input.align), cluster)
    case Write(_) => if MustBeAlone(input) then RoundDown(input.offset, input.align) else input.offset
  }

  function RangeEnd(input: Input): nat
    requires input.Valid()
  {
    var end := input.offset + input.bytes;
    match input.kind
    case Read => Ceil(end, input.align)
    case CopyOnRead(cluster, _) => Ceil(Ceil(end, input.align), cluster)
    case Write(_) => if MustBeAlone(input) then Ceil(end, input.align) else end
  }

  predicate Clash(a: Input, b: Input)
    requires a.Valid() && b.Valid()
  {
    (MustBeAlone(a) || MustBeAlone(b)) && RangeFrom(a) < RangeEnd(b) && RangeFrom(b) < RangeEnd(a)
  }

  /** The window of a request is the range that its input asks for. */
  lemma WindowIsRange(d: Disk, r: Request, input: Input)
    requires Good(d, r) == true && Serves(r, input)
    ensures r.serialising == MustBeAlone(input)
    ensures r.overlapOffset == RangeFrom(input) && r.overlapOffset + r.overlapBytes == RangeEnd(input)
  {
    assert Good(d, r);
    assert RequestOk(r);
  }

  /** Once a request has transferred anything it does not wait any more. */
  lemma {:induction false} PassedForGood(ss: seq<State>, steps: seq<Step>, id: Id, m: nat, n: nat)
    requires IsRun(ss, steps) == true && Inv(ss[0]) == true && m < n <= |steps| && steps[m] == Transfer(id)
    requires Stays(ss, steps, id, m, n)
    ensures id in ss[n].reqs && ss[n].reqs[id].Passed()
    decreases n
  {
    if n > m + 1 {
      assert Stays(ss, steps, id, m, n - 1);
      PassedForGood(ss, steps, id, m, n - 1);
    }
    PassedOneMore(ss, steps, id, m, n - 1);
  }

  ghost predicate Stays(ss: seq<State>, steps: seq<Step>, id: Id, m: nat, n: nat)
    requires IsRun(ss, steps) == true && n <= |steps|
  {
    forall k :: m <= k <= n ==> id in ss[k].reqs
  }

  lemma PassedOneMore(ss: seq<State>, steps: seq<Step>, id: Id, m: nat, n: nat)
    requires IsRun(ss, steps) == true && Inv(ss[0]) == true && m <= n < |steps| && steps[m] == Transfer(id)
    requires id in ss[n].reqs && id in ss[n + 1].reqs && (m < n ==> ss[n].reqs[id].Passed())
    ensures ss[n + 1].reqs[id].Passed()
  {
    assert StepAt(ss, steps, n);
    AtInv(ss, steps, n);
    if m < n {
      PassedStays(ss[n], steps[n], id);
    } else {
      TransferredHasPassed(ss[n], id);
    }
  }

  lemma TransferredHasPassed(s: State, id: Id)
    requires id in s.reqs && s.reqs[id].status == Issued && Ready(s.reqs[id])
    ensures id in Transferred(s, id).reqs && Transferred(s, id).reqs[id].Passed()
  {
  }

  lemma PassedStays(s: State, step: Step, id: Id)
    requires Inv(s) == true && Enabled(s, step) && id in s.reqs && s.reqs[id].Passed() && id in Next(s, step).reqs
    ensures Next(s, step).reqs[id].Passed()
  {
    match step
    case Arrive(x, input) => ArrivalLeavesOthers(s, x, input);
    case Resume(x) => ScanIsNoWork(s, x);
    case Transfer(x) =>
    case Continue(x) => ContinueKeepsPassed(s, x, id);
  }

  lemma ContinueKeepsPassed(s: State, x: Id, id: Id)
    requires Inv(s) == true && x in s.reqs && s.reqs[x].status == Moved && Ready(s.reqs[x])
    requires id in s.reqs && s.reqs[id].Passed() && id in Continued(s, x).reqs
    ensures Continued(s, x).reqs[id].Passed()
  {
    if s.reqs[x].NextPhase().Some? {
      LaterWaitsPass(s, x);
    }
  }

  /**
   * Between two transfers of one request no request transfers anything whose range overlaps its own,
   * if one of the two must be alone: so what a read-modify-write has read stays true until it writes.
   */
  lemma NoInterleaving(disk: Disk, ss: seq<State>, steps: seq<Step>, i: nat, j: nat, m: nat, n: nat, k: nat)
    requires IsRun(ss, steps) == true && ss[0] == Initial(disk) && m < n < k < |steps|
    requires steps[m].Transfer? && steps[k] == steps[m] && steps[n].Transfer? && steps[n].id != steps[m].id
    requires TrackedSince(ss, steps, steps[m].id, i, k) && i < m
    requires TrackedSince(ss, steps, steps[n].id, j, n)
    ensures steps[i].input.Valid() && steps[j].input.Valid() && !Clash(steps[i].input, steps[j].input)
  {
    var x, y := steps[m].id, steps[n].id;
    InitialInv(disk);
    assert StepAt(ss, steps, n);
    AtInv(ss, steps, n);
    assert Tracked(ss, steps, i, n);
    assert Stays(ss, steps, x, m, n);
    PassedForGood(ss, steps, x, m, n);
    ServedAlong(ss, steps, i, n);
    ServedAlong(ss, steps, j, n);
    PassedDoNotClash(ss[n], x, y, steps[i].input, steps[j].input);
  }

  lemma PassedDoNotClash(s: State, x: Id, y: Id, a: Input, b: Input)
    requires Inv(s) == true && x in s.reqs && y in s.reqs && x != y && s.reqs[x].Passed() && s.reqs[y].Passed()
    requires Serves(s.reqs[x], a) && Serves(s.reqs[y], b)
    ensures !Clash(a, b)
  {
    assert Structure(s) && Exclusive(s, None);
    assert Good(s.disk, s.reqs[x]) && Good(s.disk, s.reqs[y]);
    WindowIsRange(s.disk, s.reqs[x], a);
    WindowIsRange(s.disk, s.reqs[y], b);
    assert !Conflict(s.reqs[x], s.reqs[y]);
  }
}
