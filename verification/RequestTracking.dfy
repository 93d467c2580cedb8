/** The request list of a device, updated in place, proved against the protocol's functions. */
module RequestTracking {
  import opened Bytes
  import opened RequestProtocol
  import opened RequestSafety

  /** The waiters of `id` have been woken, and nothing else changed. */
  ghost predicate Restarted(reqs: map<Id, Request>, reqs': map<Id, Request>, id: Id)
  {
    && reqs'.Keys == reqs.Keys
    && forall x :: x in reqs ==>
         reqs'[x] == if reqs[x].status == Waiting(id) then reqs[x].(status := Woken) else reqs[x]
  }

  /** The `n` bytes from `a` lie in the `m` bytes from `b`. */
  predicate Inside(a: nat, n: nat, b: nat, m: nat) { b <= a && a + n <= b + m }

  /** The blocks, or clusters, that a request touches. */
  function BlocksFrom(r: Request, unit: nat): nat
    requires unit > 0
  {
    RoundDown(r.offset, unit)
  }

  function BlocksBytes(r: Request, unit: nat): nat
    requires unit > 0
  {
    assert RoundDown(r.offset, unit) <= r.offset <= r.End() <= Ceil(r.End(), unit);
    Ceil(r.End(), unit) - RoundDown(r.offset, unit)
  }

  /**
   * The window after marking starts at the smaller of two offsets and has the larger of two lengths.
   * It covers both the window so far and the blocks exactly when one of these contains the other.
   */
  lemma MarkCoversIff(r: Request, unit: nat)
    requires unit > 0
    ensures var q, from, n := Marked(r, unit), BlocksFrom(r, unit), BlocksBytes(r, unit);
            Inside(r.overlapOffset, r.overlapBytes, q.overlapOffset, q.overlapBytes)
            && Inside(from, n, q.overlapOffset, q.overlapBytes)
            <==> Inside(r.overlapOffset, r.overlapBytes, from, n) || Inside(from, n, r.overlapOffset, r.overlapBytes)
  {
    var n := BlocksBytes(r, unit);
  }

  /** A request whose window is its own range gets its whole blocks as window; to mark it again changes nothing. */
  lemma MarkWindow(r: Request, unit: nat)
    requires unit > 0
    ensures var q, from, n := Marked(r, unit), BlocksFrom(r, unit), BlocksBytes(r, unit);
            && (Inside(r.overlapOffset, r.overlapBytes, from, n) ==> q.overlapOffset == from && q.overlapBytes == n)
            && (r.serialising && Inside(from, n, r.overlapOffset, r.overlapBytes) ==> q == r)
            && Inside(r.offset, r.bytes, from, n) && Marked(q, unit) == q
  {
    var n := BlocksBytes(r, unit);
  }

  class BlockDevice {
    var disk: Disk
    var tracked: seq<Id>
    var reqs: map<Id, Request>
    var serialisingInFlight: nat

    constructor (disk: Disk)
      ensures Abstract() == Initial(disk) && Inv(Abstract()) == true
    {
      this.disk, tracked, reqs, serialisingInFlight := disk, [], map[], 0;
      new;
      assert Inv(Initial(disk));
    }

    ghost function Abstract(): State
      reads this
    {
      State(disk, tracked, reqs, serialisingInFlight)
    }

    /** The counter counts the tracked requests that serialise. */
    ghost predicate Counted()
      reads this
    {
      && NoDuplicates(tracked) && (forall x :: x in tracked ==> x in reqs)
      && serialisingInFlight == Count(tracked, reqs)
    }

    /** Puts a request at the head of the list. For now it conflicts with serialising requests only. */
    method TrackedRequestBegin(id: Id, kind: Kind, align: nat, offset: nat, bytes: nat)
      requires align > 0
      modifies `tracked, `reqs
      ensures Abstract() == Begin(old(Abstract()), id, NewRequest(kind, align, offset, bytes))
      ensures old(Counted()) && id !in old(tracked) ==> Counted()
      ensures forall x :: x in old(reqs) && x != id ==>
                (Conflict(reqs[x], reqs[id]) <==> old(reqs)[x].serialising && Overlaps(old(reqs)[x], offset, bytes))
    {
      var r := Request(kind, align, offset, bytes, false, offset, bytes, DataRead, Issued, [], [], []);
      reqs := reqs[id := r.(phase := r.FirstPhase())];
      tracked := [id] + tracked;
      if old(Counted()) && id !in old(tracked) {
        NoDuplicatesCons(id, old(tracked));
        CountSame(old(tracked), old(reqs), reqs);
        assert tracked[1..] == old(tracked);
      }
    }

    /** Widens the window of a request to its whole blocks, or clusters, and counts the request once. */

    method MarkRequestSerialising(id: Id)
      requires id in reqs && reqs[id].Unit() > 0
      modifies `reqs, `serialisingInFlight
      ensures Abstract() == Mark(old(Abstract()), id) && reqs[id].serialising
      ensures old(Counted()) && id in tracked ==> Counted()
      ensures var r, q, from, n := old(reqs)[id], reqs[id], BlocksFrom(reqs[id], reqs[id].Unit()), BlocksBytes(reqs[id], reqs[id].Unit());
              && (Inside(r.overlapOffset, r.overlapBytes, from, n) ==> q.overlapOffset == from && q.overlapBytes == n)
              && (r.serialising && Inside(from, n, r.overlapOffset, r.overlapBytes) ==> Abstract() == old(Abstract()))
    {
      MarkWindow(reqs[id], reqs[id].Unit());
      var r := reqs[id];
      var unit := r.Unit();
      var overlapOffset := RoundDown(r.offset, unit);
      var overlapBytes := Ceil(r.End(), unit) - overlapOffset;
      if !r.serialising {
        serialisingInFlight := serialisingInFlight + 1;
      }
      reqs := reqs[id := r.(serialising := true,
                            overlapOffset := Min(r.overlapOffset, overlapOffset),
                            overlapBytes := Max(r.overlapBytes, overlapBytes))];
      if old(Counted()) && id in tracked {
        if r.serialising {
          CountSame(tracked, old(reqs), reqs);
        } else {
          CountRaised(tracked, old(reqs), id, reqs[id]);
        }
      }
    }

    /** Reads are widened to whole blocks before they are tracked. */
    static method TrackedRange(input: Input) returns (offset: nat, bytes: nat)
      requires input.Valid()
      ensures NewRequest(input.kind, input.align, offset, bytes) == input.Request()
    {
      offset, bytes := input.offset, input.bytes;
      if !input.kind.Write? {
        offset := RoundDown(input.offset, input.align);
        bytes := Ceil(input.offset + input.bytes, input.align) - offset;
      }
    }

    /** A request from its entry to its first suspension. */
    method Arrive(id: Id, input: Input) returns (waits: bool)
      requires id !in reqs && input.Valid()
      modifies `tracked, `reqs, `serialisingInFlight
      ensures Abstract() == Arrival(old(Abstract()), id, input)
      ensures id in reqs && waits == reqs[id].status.Waiting?
    {
      var offset, bytes := TrackedRange(input);
      TrackedRequestBegin(id, input.kind, input.align, offset, bytes);
      if reqs[id].MustSerialise() {
        MarkRequestSerialising(id);
      }
      waits := WaitSerialisingRequests(id);
    }

    /** After a transfer: the next phase, where the tail of a write is marked again and waited for, or the end. */
    method Continue(id: Id)
      requires Inv(Abstract()) == true && id in reqs && Ready(reqs[id])
      modifies `tracked, `reqs, `serialisingInFlight
      ensures Abstract() == Continued(old(Abstract()), id)
    {
      var r := reqs[id];
      var p := r.NextPhase();
      if p.None? {
        EndAllowed(Abstract(), id);
        TrackedRequestEnd(id);
        return;
      }
      reqs := reqs[id := r.(phase := p.value, status := Issued)];
      if p.value == CopyWrite {
        return;
      }
      if p.value == TailRead {
        MarkRequestSerialising(id);
      }
      var waits := WaitSerialisingRequests(id);
    }

    /** One pass over the list: waits for the first conflicting request, or passes. */
    method WaitSerialisingRequests(id: Id) returns (waits: bool)
      requires id in reqs
      modifies `reqs
      ensures Abstract() == Scan(old(Abstract()), id)
      ensures id in reqs && waits == reqs[id].status.Waiting?
    {
      var self := reqs[id];
      reqs := reqs[id := self.(status := Issued)];
      if serialisingInFlight == 0 {
        return false;
      }
      var i := 0;
      while i < |tracked|
        invariant 0 <= i <= |tracked| && reqs == old(reqs)[id := self.(status := Issued)]
        invariant FirstBlocking(tracked, reqs, id) == FirstBlocking(tracked[i..], reqs, id)
      {
        var other := tracked[i];
        assert tracked[i..][1..] == tracked[i + 1..];
        if other in reqs && other != id && (reqs[other].serialising || self.serialising) {
          if Overlaps(reqs[other], self.overlapOffset, self.overlapBytes) {
            if !reqs[other].WaitingFor() {
              reqs := reqs[id := self.(status := Waiting(other))];
              assert reqs == old(reqs)[id := self.(status := Waiting(other))];
              return true;
            }
          }
        }
        i := i + 1;
      }
      waits := false;
    }

    /** Takes a request off the list and wakes everyone that waits for it. */
    method TrackedRequestEnd(id: Id)
      requires id in reqs && (reqs[id].serialising ==> serialisingInFlight > 0)
      requires forall x :: x in tracked <==> x in reqs
      modifies `tracked, `reqs, `serialisingInFlight
      ensures Abstract() == EndRequest(old(Abstract()), id)
    {
      ghost var s0 := Abstract();
      var all := tracked;
      DropInFlight(id);
      Unlink(id);
      RestartAll(id, all);
      RestartedMap(s0, reqs, id);
      reqs := reqs - {id};
      EndedState(s0, Abstract(), id);
    }

    method DropInFlight(id: Id)
      requires id in reqs && (reqs[id].serialising ==> serialisingInFlight > 0)
      modifies `serialisingInFlight
      ensures serialisingInFlight == old(serialisingInFlight) - if reqs[id].serialising then 1 else 0
    {
      if reqs[id].serialising {
        serialisingInFlight := serialisingInFlight - 1;
      }
    }

    method Unlink(id: Id)
      modifies `tracked
      ensures tracked == Remove(old(tracked), id)
    {
      ghost var all := tracked;
      var kept := [];
      while |tracked| > 0
        invariant kept + Remove(tracked, id) == Remove(all, id)
        decreases |tracked|
      {
        if tracked[0] != id {
          kept := kept + [tracked[0]];
        }
        tracked := tracked[1..];
      }
      tracked := kept;
    }

    /** Wakes the waiters of `id`, one after the other. */
    method RestartAll(id: Id, all: seq<Id>)
      requires forall x :: x in all <==> x in reqs
      modifies `reqs
      ensures Restarted(old(reqs), reqs, id) == true
    {
      var i := 0;
      while i < |all|
        invariant 0 <= i <= |all| && reqs.Keys == old(reqs).Keys
        invariant forall x :: x in reqs ==>
                    reqs[x] == if x in all[..i] && old(reqs)[x].status == Waiting(id)
                               then old(reqs)[x].(status := Woken) else old(reqs)[x]
      {
        var x := all[i];
        assert x in all && all[..i + 1] == all[..i] + [x];
        if reqs[x].status == Waiting(id) {
          reqs := reqs[x := reqs[x].(status := Woken)];
        }
        i := i + 1;
      }
      assert all[..|all|] == all;
      assert Restarted(old(reqs), reqs, id);
    }
  }

  lemma RestartedMap(s: State, reqs: map<Id, Request>, id: Id)
    requires id in s.reqs && Restarted(s.reqs, reqs, id) == true
    ensures reqs - {id} == EndRequest(s, id).reqs
  {
  }

  lemma EndedState(s: State, s': State, id: Id)
    requires id in s.reqs && s'.disk == s.disk && s'.tracked == Remove(s.tracked, id)
    requires s.reqs[id].serialising ==> s.serialisingInFlight > 0
    requires s'.serialisingInFlight == s.serialisingInFlight - if s.reqs[id].serialising then 1 else 0
    requires s'.reqs == EndRequest(s, id).reqs
    ensures s' == EndRequest(s, id)
  {
  }

  /** In every state of the protocol a tracked request can be ended, and that keeps the invariant. */
  lemma EndAllowed(s: State, id: Id)
    requires Inv(s) == true && id in s.reqs
    ensures s.reqs[id].serialising ==> s.serialisingInFlight > 0
    ensures forall x :: x in s.tracked <==> x in s.reqs
    ensures Inv(EndRequest(s, id)) == true
  {
    EndKeepsInv(s, id);
    assert Structure(s);
    CountZero(s.tracked, s.reqs);
  }
}
