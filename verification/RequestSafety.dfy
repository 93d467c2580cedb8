/** What holds in every reachable state of the tracked-request protocol. */
module RequestSafety {
  import opened Bytes
  import opened RequestProtocol

  // ----- the invariant -----

  /** A request's phase belongs to its kind, and its window is the one its marking gives. */
  predicate RequestOk(r: Request)
  {
    && r.align > 0 && r.Unit() > 0
    && (r.kind.Write? ==> |r.kind.data| == r.bytes)
    && (match r.kind
        case Read => r.phase == DataRead
        case CopyOnRead(_, copy) => if copy then r.phase == CopyRead || r.phase == CopyWrite else r.phase == DataRead
        case Write(_) => (r.phase == HeadRead && r.HeadUnaligned()) || (r.phase == TailRead && r.TailUnaligned())
                         || r.phase == DataWrite)
    && r.serialising == r.MustSerialise()
    && (if r.serialising
        then r.overlapOffset == RoundDown(r.offset, r.Unit())
             && r.overlapOffset + r.overlapBytes == Ceil(r.End(), r.Unit())
        else r.overlapOffset == r.offset && r.overlapBytes == r.bytes)
    && (r.WaitingFor() ==> r.phase == r.FirstPhase())
  }

  ghost predicate Holds(d: Disk, off: nat, n: nat, buf: seq<byte>)
  {
    |buf| == n && forall i :: 0 <= i < n ==> buf[i] == d(off + i)
  }

  predicate HasHead(r: Request)
    requires r.align > 0
  {
    r.kind.Write? && r.HeadUnaligned() && (r.phase == HeadRead ==> r.status.Moved?)
    && (r.phase == DataWrite ==> !r.status.Moved?) && !r.WaitingFor()
  }

  predicate HasTail(r: Request)
    requires r.align > 0
  {
    r.kind.Write? && r.TailUnaligned() && r.phase != HeadRead && (r.phase == TailRead ==> r.status.Moved?)
    && (r.phase == DataWrite ==> !r.status.Moved?) && !r.WaitingFor()
  }

  predicate HasBounce(r: Request)
  {
    (r.phase == CopyRead && r.status.Moved?) || (r.phase == CopyWrite && r.status.Issued?)
  }

  /** What a request has read for its own write is still what the device holds. */
  ghost predicate BuffersFresh(d: Disk, r: Request)
    requires RequestOk(r)
  {
    && (HasHead(r) ==> Holds(d, RoundDown(r.offset, r.align), r.align, r.head))
    && (HasTail(r) ==> Holds(d, RoundDown(r.End(), r.align), r.align, r.tail))
    && (HasBounce(r) ==>
          Holds(d, RoundDown(r.offset, r.Unit()), Ceil(r.End(), r.Unit()) - RoundDown(r.offset, r.Unit()), r.bounce))
  }

  ghost predicate Good(d: Disk, r: Request) { RequestOk(r) && BuffersFresh(d, r) }

  ghost predicate Structure(s: State)
  {
    && NoDuplicates(s.tracked)
    && (forall id :: id in s.tracked <==> id in s.reqs)
    && s.serialisingInFlight == Count(s.tracked, s.reqs)
    && (forall id :: id in s.reqs ==> Good(s.disk, s.reqs[id]))
  }

  /** Mutual exclusion between the requests other than `except`. */
  ghost predicate Exclusive(s: State, except: Option<Id>)
  {
    forall x, y :: x in s.reqs && y in s.reqs && x != y && Some(x) != except && Some(y) != except ==>
      !(s.reqs[x].Passed() && s.reqs[y].Passed() && Conflict(s.reqs[x], s.reqs[y]))
  }

  /** Every waiter other than `except` waits for a request that has passed. */
  ghost predicate WaitsForPassed(s: State, except: Option<Id>)
  {
    forall x :: x in s.reqs && Some(x) != except && s.reqs[x].status.Waiting? ==>
      var on := s.reqs[x].status.on; on in s.reqs && on != x && Some(on) != except && s.reqs[on].Passed()
  }

  ghost predicate Inv(s: State)
  {
    Structure(s) && Exclusive(s, None) && WaitsForPassed(s, None)
  }

  // ----- counting serialising requests -----

  lemma {:induction false} CountSame(tracked: seq<Id>, reqs: map<Id, Request>, reqs': map<Id, Request>)
    requires forall id :: id in tracked ==> id in reqs && id in reqs' && reqs[id].serialising == reqs'[id].serialising
    ensures Count(tracked, reqs) == Count(tracked, reqs')
  {
    if |tracked| > 0 {
      assert tracked[0] in tracked;
      CountSame(tracked[1..], reqs, reqs');
    }
  }

  lemma {:induction false} CountZero(tracked: seq<Id>, reqs: map<Id, Request>)
    ensures Count(tracked, reqs) == 0 <==> forall id :: id in tracked && id in reqs ==> !reqs[id].serialising
  {
    if |tracked| > 0 {
      assert tracked[0] in tracked;
      CountZero(tracked[1..], reqs);
      assert forall id :: id in tracked <==> id == tracked[0] || id in tracked[1..];
    }
  }

  lemma {:induction false} CountRaised(tracked: seq<Id>, reqs: map<Id, Request>, id: Id, r: Request)
    requires NoDuplicates(tracked) && id in tracked && id in reqs && !reqs[id].serialising && r.serialising
    requires forall x :: x in tracked ==> x in reqs
    ensures Count(tracked, reqs[id := r]) == Count(tracked, reqs) + 1
  {
    assert forall x :: x in tracked <==> x == tracked[0] || x in tracked[1..];
    if tracked[0] == id {
      CountSame(tracked[1..], reqs, reqs[id := r]);
    } else {
      CountRaised(tracked[1..], reqs, id, r);
    }
  }

  lemma {:induction false} CountRemoved(tracked: seq<Id>, reqs: map<Id, Request>, id: Id)
    requires NoDuplicates(tracked) && id in tracked && forall x :: x in tracked ==> x in reqs
    ensures Count(Remove(tracked, id), reqs) == Count(tracked, reqs) - (if reqs[id].serialising then 1 else 0)
  {
    assert forall x :: x in tracked <==> x == tracked[0] || x in tracked[1..];
    if tracked[0] == id {
      RemoveAbsent(tracked[1..], id);
    } else {
      CountRemoved(tracked[1..], reqs, id);
      assert Remove(tracked, id)[1..] == Remove(tracked[1..], id);
    }
  }

  lemma {:induction false} RemoveAbsent(tracked: seq<Id>, id: Id)
    requires id !in tracked
    ensures Remove(tracked, id) == tracked
  {
    if |tracked| > 0 {
      RemoveAbsent(tracked[1..], id);
      assert tracked == [tracked[0]] + tracked[1..];
    }
  }

  lemma NoDuplicatesCons(x: Id, rest: seq<Id>)
    requires NoDuplicates(rest) && x !in rest
    ensures NoDuplicates([x] + rest)
  {
  }

  lemma {:induction false} RemoveNoDuplicates(tracked: seq<Id>, id: Id)
    requires NoDuplicates(tracked)
    ensures NoDuplicates(Remove(tracked, id))
  {
    if |tracked| > 0 {
      RemoveNoDuplicates(tracked[1..], id);
      if tracked[0] != id {
        assert tracked[0] !in tracked[1..];
        NoDuplicatesCons(tracked[0], Remove(tracked[1..], id));
      }
    }
  }

  // ----- waiting -----

  /** With no serialising request in flight nothing can conflict, so not scanning is sound. */
  lemma NoneSerialising(s: State)
    requires Structure(s) && s.serialisingInFlight == 0
    ensures forall x, y :: x in s.reqs && y in s.reqs ==> !Conflict(s.reqs[x], s.reqs[y])
  {
    CountZero(s.tracked, s.reqs);
  }

  /** A request that scans either waits for one that has passed, or passes with no conflict. */
  lemma ScanKeepsInv(s: State, id: Id)
    requires Structure(s) && id in s.reqs && s.reqs[id].align > 0 && s.reqs[id].phase == s.reqs[id].FirstPhase()
    requires Exclusive(s, Some(id)) && WaitsForPassed(s, Some(id))
    requires s.reqs[id].status.Issued? || s.reqs[id].WaitingFor()
    ensures Inv(Scan(s, id)) == true
  {
    var s' := Scan(s, id);
    StructureKept(s, s', id);
    ScanExcludes(s, id);
    assert Inv(s');
  }

  function WithStatus(s: State, id: Id, status: Status): State
    requires id in s.reqs
  {
    s.(reqs := s.reqs[id := s.reqs[id].(status := status)])
  }

  lemma ConflictSymmetric(x: Request, y: Request)
    ensures Conflict(x, y) == Conflict(y, x)
  {
  }

  lemma PassExcludes(s: State, id: Id)
    requires id in s.reqs && Exclusive(s, Some(id)) && WaitsForPassed(s, Some(id))
    requires forall x :: x in s.reqs && x != id && s.reqs[x].Passed() ==> !Conflict(s.reqs[x], s.reqs[id])
    ensures Exclusive(WithStatus(s, id, Issued), None) && WaitsForPassed(WithStatus(s, id, Issued), None)
  {
    var s' := WithStatus(s, id, Issued);
    forall x, y | x in s'.reqs && y in s'.reqs && x != y && s'.reqs[x].Passed() && s'.reqs[y].Passed()
      ensures !Conflict(s'.reqs[x], s'.reqs[y])
    {
      if y == id {
        assert !Conflict(s.reqs[x], s.reqs[id]);
      } else if x == id {
        assert !Conflict(s.reqs[y], s.reqs[id]);
        ConflictSymmetric(s.reqs[y], s.reqs[id]);
      }
    }
  }

  lemma WaitExcludes(s: State, id: Id, other: Id)
    requires id in s.reqs && Exclusive(s, Some(id)) && WaitsForPassed(s, Some(id))
    requires other in s.reqs && other != id && s.reqs[other].Passed()
    ensures Exclusive(WithStatus(s, id, Waiting(other)), None) && WaitsForPassed(WithStatus(s, id, Waiting(other)), None)
  {
  }

  lemma ScanExcludes(s: State, id: Id)
    requires Structure(s) == true && id in s.reqs
    requires Exclusive(s, Some(id)) == true && WaitsForPassed(s, Some(id)) == true
    ensures Exclusive(Scan(s, id), None) == true && WaitsForPassed(Scan(s, id), None) == true
  {
    var running := s.reqs[id := s.reqs[id].(status := Issued)];
    if s.serialisingInFlight == 0 {
      NoneSerialising(s);
      PassExcludes(s, id);
    } else {
      var b := FirstBlocking(s.tracked, running, id);
      if b.None? {
        forall x | x in s.reqs && x != id && s.reqs[x].Passed()
          ensures !Conflict(s.reqs[x], s.reqs[id])
        {
          assert !Blocks(running, id, x);
        }
        PassExcludes(s, id);
      } else {
        assert Blocks(running, id, b.value);
        WaitExcludes(s, id, b.value);
      }
    }
  }

  lemma FirstPhaseGood(d: Disk, r: Request, status: Status)
    requires Good(d, r) && r.phase == r.FirstPhase() && !status.Moved?
    ensures Good(d, r.(status := status)) == true
  {
    var r' := r.(status := status);
    assert RequestOk(r');
    assert !HasHead(r') && !HasTail(r') && !HasBounce(r');
    assert BuffersFresh(d, r');
  }

  /** Only the status of `id` changed, to one its phase allows. */
  lemma StructureKept(s: State, s': State, id: Id)
    requires Structure(s) == true && id in s.reqs && s.reqs[id].align > 0 && s.reqs[id].phase == s.reqs[id].FirstPhase()
    requires id in s'.reqs && s' == s.(reqs := s.reqs[id := s.reqs[id].(status := s'.reqs[id].status)])
    requires s'.reqs[id].status.Issued? || s'.reqs[id].status.Waiting?
    ensures Structure(s') == true
  {
    CountSame(s.tracked, s.reqs, s'.reqs);
    FirstPhaseGood(s.disk, s.reqs[id], s'.reqs[id].status);
    forall x | x in s'.reqs
      ensures Good(s'.disk, s'.reqs[x]) == true
    {
      assert x != id ==> Good(s.disk, s.reqs[x]);
    }
    assert Structure(s');
  }

  /** A request that has passed finds nothing to wait for when it scans again. */
  lemma PassedNeverWaits(s: State, t: State, id: Id)
    requires Structure(t) && id in s.reqs && id in t.reqs && Exclusive(s, None) && s.reqs[id].Passed()
    requires t.tracked == s.tracked && t.reqs.Keys == s.reqs.Keys
    requires forall x :: x in s.reqs && x != id ==> t.reqs[x] == s.reqs[x]
    requires t.reqs[id].serialising == s.reqs[id].serialising
    requires t.reqs[id].overlapOffset == s.reqs[id].overlapOffset && t.reqs[id].overlapBytes == s.reqs[id].overlapBytes
    ensures Scan(t, id) == t.(reqs := t.reqs[id := t.reqs[id].(status := Issued)])
  {
    var running := t.reqs[id := t.reqs[id].(status := Issued)];
    forall x | x in t.tracked
      ensures !Blocks(running, id, x)
    {
      if x in t.reqs && x != id && Conflict(t.reqs[x], t.reqs[id]) {
        assert !(s.reqs[x].Passed());
      }
    }
  }

  // ----- every step keeps the invariant -----

  lemma MarkedOk(r: Request)
    requires r.align > 0 && r.Unit() > 0 && r.MustSerialise()
    requires (r.overlapOffset == r.offset && r.overlapBytes == r.bytes)
             || (r.overlapOffset == RoundDown(r.offset, r.Unit()) && r.overlapOffset + r.overlapBytes == Ceil(r.End(), r.Unit()))
    ensures var q := Marked(r, r.Unit());
            && q.overlapOffset == RoundDown(r.offset, r.Unit())
            && q.overlapOffset + q.overlapBytes == Ceil(r.End(), r.Unit())
  {
    assert RoundDown(r.offset, r.Unit()) <= r.offset <= r.End() <= Ceil(r.End(), r.Unit());
  }

  /** A request as it stands when it first scans. */
  function Prepared(input: Input): Request
    requires input.Valid()
  {
    var r := input.Request();
    if r.MustSerialise() then Marked(r, r.Unit()) else r
  }

  lemma PreparedGood(d: Disk, input: Input)
    requires input.Valid()
    ensures var r := Prepared(input); Good(d, r) == true && r.phase == r.FirstPhase() && r.status == Issued
    ensures Prepared(input).serialising == input.Request().MustSerialise()
  {
    var q := input.Request();
    if q.MustSerialise() {
      MarkedOk(q);
    }
    var r := Prepared(input);
    assert RequestOk(r);
    assert !HasHead(r) && !HasTail(r) && !HasBounce(r);
    assert BuffersFresh(d, r);
  }

  lemma BegunStructure(s: State, id: Id, r: Request)
    requires Structure(s) == true && id !in s.reqs && Good(s.disk, r) == true
    ensures Structure(State(s.disk, [id] + s.tracked, s.reqs[id := r],
                            s.serialisingInFlight + if r.serialising then 1 else 0)) == true
  {
    var s' := State(s.disk, [id] + s.tracked, s.reqs[id := r], s.serialisingInFlight + if r.serialising then 1 else 0);
    NoDuplicatesCons(id, s.tracked);
    CountSame(s.tracked, s.reqs, s'.reqs);
    assert s'.tracked[1..] == s.tracked;
    forall x | x in s'.reqs
      ensures Good(s'.disk, s'.reqs[x]) == true
    {
      assert x != id ==> Good(s.disk, s.reqs[x]);
    }
    assert Structure(s');
  }

  lemma NewcomerExcepted(s: State, t: State, id: Id)
    requires Exclusive(s, None) == true && WaitsForPassed(s, None) == true && id !in s.reqs
    requires id in t.reqs && t.reqs == s.reqs[id := t.reqs[id]]
    ensures Exclusive(t, Some(id)) == true && WaitsForPassed(t, Some(id)) == true
  {
    assert Exclusive(t, Some(id)) && WaitsForPassed(t, Some(id));
  }

  lemma ArriveKeepsInv(s: State, id: Id, input: Input)
    requires Inv(s) == true && id !in s.reqs && input.Valid()
    ensures Inv(Arrival(s, id, input)) == true
  {
    var r := Prepared(input);
    PreparedGood(s.disk, input);
    BegunStructure(s, id, r);
    var t := State(s.disk, [id] + s.tracked, s.reqs[id := r], s.serialisingInFlight + if r.serialising then 1 else 0);
    assert s.reqs[id := input.Request()][id := r] == t.reqs;
    assert Arrival(s, id, input) == Scan(t, id);
    NewcomerExcepted(s, t, id);
    ScanKeepsInv(t, id);
  }

  lemma ResumeKeepsInv(s: State, id: Id)
    requires Inv(s) && id in s.reqs && s.reqs[id].status == Woken
    ensures Inv(Scan(s, id)) == true
  {
    assert Good(s.disk, s.reqs[id]);
    ScanKeepsInv(s, id);
  }

  /** `r'` has the window and the mode of `r`, and both have passed. */
  predicate StillPassed(r: Request, r': Request)
  {
    && r.Passed() && r'.Passed() && r'.serialising == r.serialising
    && r'.overlapOffset == r.overlapOffset && r'.overlapBytes == r.overlapBytes
  }

  /** One passed request changed, keeping its window, its mode and that it has passed. */
  lemma UpdateKeepsInv(s: State, s': State, id: Id)
    requires Inv(s) == true && id in s.reqs && id in s'.reqs && StillPassed(s.reqs[id], s'.reqs[id])
    requires s' == State(s'.disk, s.tracked, s.reqs[id := s'.reqs[id]], s.serialisingInFlight)
    requires forall x :: x in s'.reqs ==> Good(s'.disk, s'.reqs[x]) == true
    ensures Inv(s') == true
  {
    UpdateExcludes(s, s', id);
    CountSame(s.tracked, s.reqs, s'.reqs);
    assert Structure(s') by {
      assert Structure(s);
    }
  }

  lemma UpdateExcludes(s: State, s': State, id: Id)
    requires Exclusive(s, None) == true && WaitsForPassed(s, None) == true
    requires id in s.reqs && id in s'.reqs && StillPassed(s.reqs[id], s'.reqs[id])
    requires s'.reqs == s.reqs[id := s'.reqs[id]]
    ensures Exclusive(s', None) == true && WaitsForPassed(s', None) == true
  {
    forall x, y | x in s'.reqs && y in s'.reqs && x != y
      ensures !(s'.reqs[x].Passed() && s'.reqs[y].Passed() && Conflict(s'.reqs[x], s'.reqs[y]))
    {
      assert !(s.reqs[x].Passed() && s.reqs[y].Passed() && Conflict(s.reqs[x], s.reqs[y]));
    }
    assert WaitsForPassed(s', None);
  }

  // ----- what a transfer does to the device -----

  /** The bytes a write or a copy stores lie inside its window. */
  lemma WriteInsideWindow(d: Disk, r: Request)
    requires Good(d, r) && r.status == Issued
    ensures r.phase == DataWrite ==>
              && Ready(r) && r.overlapOffset == RoundDown(r.offset, r.align)
              && |r.Padded()| == r.overlapBytes
    ensures r.phase == CopyWrite ==>
              r.overlapOffset == RoundDown(r.offset, r.Unit()) && |r.bounce| == r.overlapBytes
  {
    if r.phase == DataWrite {
      BlocksInside(r.offset, r.End(), r.align);
    }
  }

  /** Bytes a write stores outside its own data are those the device already holds. */
  lemma PaddedBytes(d: Disk, r: Request, k: nat)
    requires Good(d, r) && r.status == Issued && r.phase == DataWrite
    requires r.overlapOffset <= k < r.overlapOffset + r.overlapBytes
    ensures Ready(r) && |r.Padded()| == r.overlapBytes
    ensures r.Padded()[k - r.overlapOffset]
            == if r.offset <= k < r.offset + r.bytes then r.kind.data[k - r.offset] else d(k)
  {
    WriteInsideWindow(d, r);
    BlocksInside(r.offset, r.End(), r.align);
  }

  /** A write step of the protocol changes exactly the requested bytes, whatever is interleaved. */
  lemma WriteStepIsExact(s: State, id: Id, k: nat)
    requires Inv(s) && id in s.reqs && s.reqs[id].status == Issued && s.reqs[id].phase == DataWrite
    ensures Ready(s.reqs[id]) && s.reqs[id].kind.Write? && |s.reqs[id].kind.data| == s.reqs[id].bytes
    ensures var r := s.reqs[id];
            Transferred(s, id).disk(k) == if r.offset <= k < r.offset + r.bytes then r.kind.data[k - r.offset] else s.disk(k)
  {
    assert Good(s.disk, s.reqs[id]);
    WriteIsExact(s.disk, s.reqs[id], k);
  }

  lemma WriteIsExact(d: Disk, r: Request, k: nat)
    requires Good(d, r) && r.status == Issued && r.phase == DataWrite
    ensures Ready(r) && r.kind.Write? && |r.kind.data| == r.bytes
    ensures WriteDisk(d, RoundDown(r.offset, r.align), r.Padded())(k)
            == if r.offset <= k < r.offset + r.bytes then r.kind.data[k - r.offset] else d(k)
  {
    WriteInsideWindow(d, r);
    if r.overlapOffset <= k < r.overlapOffset + r.overlapBytes {
      PaddedBytes(d, r, k);
    }
    BlocksInside(r.offset, r.End(), r.align);
  }

  /** The write of a copy-on-read puts back what the device holds. */
  lemma CopyStepChangesNothing(s: State, id: Id, k: nat)
    requires Inv(s) && id in s.reqs && s.reqs[id].status == Issued && s.reqs[id].phase == CopyWrite
    ensures Ready(s.reqs[id]) && Transferred(s, id).disk(k) == s.disk(k)
  {
    assert Good(s.disk, s.reqs[id]);
    WriteInsideWindow(s.disk, s.reqs[id]);
  }

  // ----- transfers -----

  lemma PassedReady(d: Disk, r: Request)
    requires Good(d, r) && r.Passed()
    ensures Ready(r)
  {
  }

  /** The device is the same on `y`'s window. */
  ghost predicate WindowUntouched(d: Disk, d': Disk, y: Request)
  {
    forall k: nat :: y.overlapOffset <= k < y.overlapOffset + y.overlapBytes ==> d'(k) == d(k)
  }

  lemma GoodElsewhere(d: Disk, d': Disk, y: Request)
    requires Good(d, y) == true && (y.serialising && y.Passed() ==> WindowUntouched(d, d', y))
    ensures Good(d', y) == true
  {
    BlocksInside(y.offset, y.End(), y.align);
    assert RequestOk(y);
    if HasHead(y) {
      assert Holds(d', RoundDown(y.offset, y.align), y.align, y.head);
    }
    if HasTail(y) {
      assert Holds(d', RoundDown(y.End(), y.align), y.align, y.tail);
    }
    if HasBounce(y) {
      assert Holds(d', RoundDown(y.offset, y.Unit()), Ceil(y.End(), y.Unit()) - RoundDown(y.offset, y.Unit()), y.bounce);
    }
    assert BuffersFresh(d', y);
  }

  /** A transfer leaves its own request good. */
  lemma TransferredGood(s: State, id: Id)
    requires id in s.reqs && s.reqs[id].status == Issued && Good(s.disk, s.reqs[id]) == true
    ensures Ready(s.reqs[id]) && id in Transferred(s, id).reqs
    ensures Good(Transferred(s, id).disk, Transferred(s, id).reqs[id]) == true
    ensures StillPassed(s.reqs[id], Transferred(s, id).reqs[id])
  {
    var r := s.reqs[id];
    PassedReady(s.disk, r);
    if r.phase == DataWrite || r.phase == CopyWrite {
      WrittenGood(s.disk, Transferred(s, id).disk, r, Transferred(s, id).reqs[id]);
    } else {
      ReadGood(s, id);
    }
  }

  /** After a write a request keeps no buffers that could be out of date. */
  lemma WrittenGood(d: Disk, d': Disk, r: Request, r': Request)
    requires Good(d, r) == true && r.status == Issued && (r.phase == DataWrite || r.phase == CopyWrite)
    requires r' == r.(status := Moved)
    ensures Good(d', r') == true && StillPassed(r, r')
  {
    assert RequestOk(r) && RequestOk(r');
    assert !HasHead(r') && !HasTail(r') && !HasBounce(r');
    assert BuffersFresh(d', r');
  }

  lemma ReadGood(s: State, id: Id)
    requires id in s.reqs && s.reqs[id].status == Issued && Good(s.disk, s.reqs[id]) == true && Ready(s.reqs[id])
    requires s.reqs[id].phase != DataWrite && s.reqs[id].phase != CopyWrite
    ensures Good(Transferred(s, id).disk, Transferred(s, id).reqs[id]) == true
    ensures StillPassed(s.reqs[id], Transferred(s, id).reqs[id])
  {
    var r' := Transferred(s, id).reqs[id];
    assert Transferred(s, id).disk == s.disk;
    assert RequestOk(r');
    assert BuffersFresh(s.disk, r');
  }

  /** The device changes only inside the window of the request that transfers. */
  lemma TransferInsideWindow(s: State, id: Id, k: nat)
    requires id in s.reqs && s.reqs[id].status == Issued && Good(s.disk, s.reqs[id]) == true && Ready(s.reqs[id])
    requires !(s.reqs[id].overlapOffset <= k < s.reqs[id].overlapOffset + s.reqs[id].overlapBytes)
    ensures Transferred(s, id).disk(k) == s.disk(k)
  {
    WriteInsideWindow(s.disk, s.reqs[id]);
  }

  lemma TransferElsewhere(s: State, id: Id, y: Id)
    requires Inv(s) == true && id in s.reqs && s.reqs[id].status == Issued && Ready(s.reqs[id])
    requires y in s.reqs && y != id
    ensures Good(Transferred(s, id).disk, s.reqs[y]) == true
  {
    assert Structure(s) && Exclusive(s, None);
    assert Good(s.disk, s.reqs[id]) && Good(s.disk, s.reqs[y]);
    var d' := Transferred(s, id).disk;
    if s.reqs[y].serialising && s.reqs[y].Passed() {
      assert !Conflict(s.reqs[id], s.reqs[y]);
      forall k: nat | s.reqs[y].overlapOffset <= k < s.reqs[y].overlapOffset + s.reqs[y].overlapBytes
        ensures d'(k) == s.disk(k)
      {
        TransferInsideWindow(s, id, k);
      }
    }
    GoodElsewhere(s.disk, d', s.reqs[y]);
  }

  lemma TransferKeepsInv(s: State, id: Id)
    requires Inv(s) == true && id in s.reqs && s.reqs[id].status == Issued
    ensures Ready(s.reqs[id]) && Inv(Transferred(s, id)) == true
  {
    assert Good(s.disk, s.reqs[id]) by {
      assert Structure(s);
    }
    TransferredGood(s, id);
    var s' := Transferred(s, id);
    forall x | x in s'.reqs
      ensures Good(s'.disk, s'.reqs[x]) == true
    {
      if x != id {
        TransferElsewhere(s, id, x);
      }
    }
    UpdateKeepsInv(s, s', id);
  }

  // ----- going on, and ending -----

  /** The request as it enters its next phase. */
  function Advanced(r: Request): Request
    requires r.align > 0 && r.NextPhase().Some?
  {
    r.(phase := r.NextPhase().value, status := Issued)
  }

  lemma AdvancedGood(d: Disk, r: Request)
    requires Good(d, r) == true && r.status == Moved && r.NextPhase().Some?
    ensures Good(d, Advanced(r)) == true && StillPassed(r, Advanced(r))
    ensures Advanced(r).phase == TailRead ==> r.serialising && Marked(Advanced(r), r.Unit()) == Advanced(r)
  {
    var q := Advanced(r);
    assert RequestOk(r);
    assert RequestOk(q);
    assert HasHead(q) ==> HasHead(r);
    assert HasTail(q) ==> HasTail(r);
    assert HasBounce(q) ==> HasBounce(r);
    assert BuffersFresh(d, q);
    if q.phase == TailRead {
      MarkedOk(q);
    }
  }

  /** Every wait after the first finds nothing to wait for: the request just goes on. */
  lemma LaterWaitsPass(s: State, id: Id)
    requires Inv(s) == true && id in s.reqs && s.reqs[id].status == Moved && s.reqs[id].align > 0
    requires s.reqs[id].NextPhase().Some?
    ensures Ready(s.reqs[id]) && Continued(s, id) == s.(reqs := s.reqs[id := Advanced(s.reqs[id])])
    ensures Good(s.disk, Advanced(s.reqs[id])) == true && StillPassed(s.reqs[id], Advanced(s.reqs[id]))
  {
    assert Structure(s) && Exclusive(s, None);
    var r := s.reqs[id];
    assert Good(s.disk, r);
    AdvancedGood(s.disk, r);
    PassedReady(s.disk, r);
    if Advanced(r).phase != CopyWrite {
      var t := s.(reqs := s.reqs[id := Advanced(r)]);
      AdvancedStructure(s, t, id);
      AdvancedScan(s, t, id, Advanced(r));
    }
  }

  lemma AdvancedScan(s: State, t: State, id: Id, q: Request)
    requires Structure(t) == true && Exclusive(s, None) && id in s.reqs && s.reqs[id].Passed()
    requires t == s.(reqs := s.reqs[id := q]) && StillPassed(s.reqs[id], q) && q.status == Issued
    ensures Scan(t, id) == t
  {
    PassedNeverWaits(s, t, id);
    assert t.reqs[id := q] == t.reqs;
  }

  lemma AdvancedStructure(s: State, t: State, id: Id)
    requires Structure(s) == true && id in s.reqs && id in t.reqs && t == s.(reqs := s.reqs[id := t.reqs[id]])
    requires Good(s.disk, t.reqs[id]) == true && t.reqs[id].serialising == s.reqs[id].serialising
    ensures Structure(t) == true
  {
    CountSame(s.tracked, s.reqs, t.reqs);
    forall x | x in t.reqs
      ensures Good(t.disk, t.reqs[x]) == true
    {
      assert x != id ==> Good(s.disk, s.reqs[x]);
    }
    assert Structure(t);
  }

  lemma EndedStructure(s: State, id: Id)
    requires Structure(s) == true && id in s.reqs
    ensures Structure(EndRequest(s, id)) == true
  {
    var s' := EndRequest(s, id);
    RemoveNoDuplicates(s.tracked, id);
    CountRemoved(s.tracked, s.reqs, id);
    CountSame(s'.tracked, s.reqs, s'.reqs);
    forall x | x in s'.reqs
      ensures Good(s'.disk, s'.reqs[x]) == true
    {
      assert Good(s.disk, s.reqs[x]);
      if s.reqs[x].status == Waiting(id) {
        FirstPhaseGood(s.disk, s.reqs[x], Woken);
      }
    }
    assert Structure(s');
  }

  lemma EndKeepsInv(s: State, id: Id)
    requires Inv(s) == true && id in s.reqs
    ensures Inv(EndRequest(s, id)) == true
  {
    assert Structure(s) && Exclusive(s, None) && WaitsForPassed(s, None);
    EndedStructure(s, id);
    EndedExcludes(s, id);
  }

  lemma EndedExcludes(s: State, id: Id)
    requires Exclusive(s, None) == true && WaitsForPassed(s, None) == true && id in s.reqs
    ensures Exclusive(EndRequest(s, id), None) == true && WaitsForPassed(EndRequest(s, id), None) == true
  {
    var s' := EndRequest(s, id);
    assert forall x :: x in s'.reqs && s'.reqs[x].Passed() ==> s'.reqs[x] == s.reqs[x];
    assert Exclusive(s', None);
    forall x | x in s'.reqs && s'.reqs[x].status.Waiting?
      ensures var on := s'.reqs[x].status.on; on in s'.reqs && on != x && s'.reqs[on].Passed()
    {
      assert s.reqs[x].status.Waiting?;
    }
    assert WaitsForPassed(s', None);
  }

  lemma ContinueKeepsInv(s: State, id: Id)
    requires Inv(s) == true && id in s.reqs && s.reqs[id].status == Moved && Ready(s.reqs[id])
    ensures Inv(Continued(s, id)) == true
  {
    var r := s.reqs[id];
    if r.NextPhase().None? {
      EndKeepsInv(s, id);
    } else {
      LaterWaitsPass(s, id);
      var s' := Continued(s, id);
      forall x | x in s'.reqs
        ensures Good(s'.disk, s'.reqs[x]) == true
      {
        assert Structure(s);
        assert x != id ==> Good(s.disk, s.reqs[x]);
      }
      UpdateKeepsInv(s, s', id);
    }
  }

  /** No interleaving leaves the invariant. */
  lemma StepKeepsInv(s: State, step: Step)
    requires Inv(s) == true && Enabled(s, step)
    ensures Inv(Next(s, step)) == true
  {
    match step
    case Arrive(id, input) => ArriveKeepsInv(s, id, input);
    case Resume(id) => ResumeKeepsInv(s, id);
    case Transfer(id) => TransferKeepsInv(s, id);
    case Continue(id) => ContinueKeepsInv(s, id);
  }
}
