/**
 * The tracked-request protocol of the block layer. Requests on one device run as coroutines that
 * interleave at their waits and at their I/O; a request that reads and rewrites whole blocks, or
 * copies on read, is made serialising and excludes every request that overlaps its window.
 */
module RequestProtocol {
  import opened Bytes

  type Id = nat

  /** The contents of the device, byte by byte. */
  type Disk = nat -> byte

  datatype Kind =
    | Read
    | CopyOnRead(cluster: nat, copy: bool)   // `copy`: some of the range is not allocated yet
    | Write(data: seq<byte>)

  /** The I/O operations a request goes through. */
  datatype Phase = HeadRead | TailRead | DataWrite | DataRead | CopyRead | CopyWrite

  /** Where a coroutine is suspended: in a wait queue, woken, before or after its transfer. */
  datatype Status = Waiting(on: Id) | Woken | Issued | Moved

  datatype Request = Request(
    kind: Kind, align: nat, offset: nat, bytes: nat,
    serialising: bool, overlapOffset: nat, overlapBytes: nat,
    phase: Phase, status: Status,
    head: seq<byte>, tail: seq<byte>, bounce: seq<byte>) {

    function End(): nat { offset + bytes }

    predicate HeadUnaligned()
      requires align > 0
    {
      offset % align != 0
    }

    predicate TailUnaligned()
      requires align > 0
    {
      End() % align != 0
    }

    /** `waiting_for` is set from the moment a request starts to wait until it runs again. */
    predicate WaitingFor() { status.Waiting? || status.Woken? }

    /** The request has passed its wait and owns its window. */
    predicate Passed() { status.Issued? || status.Moved? }

    /** The unit its window is rounded to when it serialises. */
    function Unit(): nat { if kind.CopyOnRead? then kind.cluster else align }

    predicate MustSerialise()
      requires align > 0
    {
      match kind
      case Read => false
      case CopyOnRead(_, _) => true
      case Write(_) => HeadUnaligned() || TailUnaligned()
    }

    function FirstPhase(): Phase
      requires align > 0
    {
      match kind
      case Read => DataRead
      case CopyOnRead(_, copy) => if copy then CopyRead else DataRead
      case Write(_) => if HeadUnaligned() then HeadRead else if TailUnaligned() then TailRead else DataWrite
    }

    function NextPhase(): Option<Phase>
      requires align > 0
    {
      match phase
      case HeadRead => if TailUnaligned() then Some(TailRead) else Some(DataWrite)
      case TailRead => Some(DataWrite)
      case CopyRead => Some(CopyWrite)
      case _ => None
    }

    /** The bytes a write hands to the driver: the data completed to whole blocks. */
    function Padded(): seq<byte>
      requires align > 0 && kind.Write? && |kind.data| == bytes
      requires HeadUnaligned() ==> |head| == align
      requires TailUnaligned() ==> |tail| == align
    {
      (if HeadUnaligned() then head[..offset % align] else []) + kind.data
      + (if TailUnaligned() then tail[End() % align..] else [])
    }
  }

  datatype State = State(disk: Disk, tracked: seq<Id>, reqs: map<Id, Request>, serialisingInFlight: nat)

  // ----- arithmetic of blocks -----

  function RoundDown(n: nat, a: nat): (r: nat)
    requires a > 0
    ensures r <= n < r + a && r % a == 0 && r + n % a == n
  {
    var q := n / a;
    assert n == q * a + n % a;
    MultipleMod(q, a);
    q * a
  }

  /** The next block boundary at or after `n`. */
  function Ceil(n: nat, a: nat): (r: nat)
    requires a > 0
    ensures n <= r < n + a && r % a == 0
    ensures n % a == 0 ==> r == n
    ensures n % a != 0 ==> r == RoundDown(n, a) + a
  {
    if n % a == 0 then n
    else
      var r := RoundDown(n, a) + a;
      NextMultiple(RoundDown(n, a), a);
      r
  }

  lemma NextMultiple(n: nat, a: nat)
    requires a > 0 && n % a == 0
    ensures (n + a) % a == 0
  {
    var q := n / a;
    assert n == q * a;
    assert n + a == (q + 1) * a;
    MultipleMod(q + 1, a);
  }

  lemma MultiplesApart(x: nat, y: nat, a: nat)
    requires a > 0 && x % a == 0 && y % a == 0 && x < y
    ensures x + a <= y
  {
    var p, q := x / a, y / a;
    assert x == p * a && y == q * a;
    assert (q - p) * a == y - x;
    if q <= p {
      NonNegative(p - q, a);
    } else {
      ProductAtLeast(q - p, a);
    }
  }

  lemma NonNegative(k: nat, a: nat)
    ensures k * a >= 0
  {
  }

  /** The blocks of a request lie inside its rounded window. */
  lemma BlocksInside(off: nat, end: nat, a: nat)
    requires a > 0 && off <= end
    ensures RoundDown(off, a) <= RoundDown(end, a)
    ensures off % a != 0 ==> RoundDown(off, a) + a <= Ceil(end, a)
    ensures end % a != 0 ==> RoundDown(end, a) + a == Ceil(end, a)
  {
    if RoundDown(end, a) < RoundDown(off, a) {
      MultiplesApart(RoundDown(end, a), RoundDown(off, a), a);
    }
    if off % a != 0 {
      MultiplesApart(RoundDown(off, a), Ceil(end, a), a);
    }
  }

  // ----- operations on one request and on the list -----

  function ReadDisk(d: Disk, off: nat, n: nat): (s: seq<byte>)
    ensures |s| == n && forall i :: 0 <= i < n ==> s[i] == d(off + i)
  {
    seq(n, i requires 0 <= i < n => d(off + i))
  }

  function WriteDisk(d: Disk, off: nat, data: seq<byte>): Disk
  {
    (k: nat) => if off <= k < off + |data| then data[k - off] else d(k)
  }

  /** `mark_request_serialising`, on the request alone. */
  function Marked(r: Request, unit: nat): Request
    requires unit > 0
  {
    var down := RoundDown(r.offset, unit);
    r.(serialising := true,
       overlapOffset := Min(r.overlapOffset, down),
       overlapBytes := Max(r.overlapBytes, Ceil(r.End(), unit) - down))
  }

  predicate Overlaps(r: Request, offset: nat, bytes: nat)
  {
    offset < r.overlapOffset + r.overlapBytes && r.overlapOffset < offset + bytes
  }

  /** Two requests that must not run together. */
  predicate Conflict(x: Request, y: Request)
  {
    (x.serialising || y.serialising) && Overlaps(x, y.overlapOffset, y.overlapBytes)
  }

  /** A request that `self` would have to wait for. */
  predicate Blocks(reqs: map<Id, Request>, self: Id, id: Id)
  {
    && id in reqs && self in reqs && id != self
    && Conflict(reqs[id], reqs[self]) && !reqs[id].WaitingFor()
  }

  /** The first request of the list that `self` has to wait for. */
  function FirstBlocking(tracked: seq<Id>, reqs: map<Id, Request>, self: Id): (r: Option<Id>)
    ensures r.None? <==> forall id :: id in tracked ==> !Blocks(reqs, self, id)
    ensures r.Some? ==> r.value in tracked && Blocks(reqs, self, r.value)
  {
    if |tracked| == 0 then None
    else if Blocks(reqs, self, tracked[0]) then Some(tracked[0])
    else FirstBlocking(tracked[1..], reqs, self)
  }

  function Count(tracked: seq<Id>, reqs: map<Id, Request>): nat
  {
    if |tracked| == 0 then 0
    else (if tracked[0] in reqs && reqs[tracked[0]].serialising then 1 else 0) + Count(tracked[1..], reqs)
  }

  /** The outcome of `wait_serialising_requests` up to the next suspension of `id`. */
  function Scan(s: State, id: Id): State
    requires id in s.reqs
  {
    if s.serialisingInFlight == 0 then
      s.(reqs := s.reqs[id := s.reqs[id].(status := Issued)])
    else
      var running := s.reqs[id := s.reqs[id].(status := Issued)];
      match FirstBlocking(s.tracked, running, id)
      case Some(other) => s.(reqs := s.reqs[id := s.reqs[id].(status := Waiting(other))])
      case None => s.(reqs := running)
  }

  function Mark(s: State, id: Id): State
    requires id in s.reqs && s.reqs[id].Unit() > 0
  {
    s.(reqs := s.reqs[id := Marked(s.reqs[id], s.reqs[id].Unit())],
       serialisingInFlight := if s.reqs[id].serialising then s.serialisingInFlight else s.serialisingInFlight + 1)
  }

  function NewRequest(kind: Kind, align: nat, offset: nat, bytes: nat): Request
    requires align > 0
  {
    var r := Request(kind, align, offset, bytes, false, offset, bytes, DataRead, Issued, [], [], []);
    r.(phase := r.FirstPhase())
  }

  function Begin(s: State, id: Id, r: Request): State
  {
    s.(tracked := [id] + s.tracked, reqs := s.reqs[id := r])
  }

  function Remove(tracked: seq<Id>, id: Id): (r: seq<Id>)
    ensures forall x :: x in r <==> x in tracked && x != id
  {
    if |tracked| == 0 then []
    else if tracked[0] == id then Remove(tracked[1..], id)
    else [tracked[0]] + Remove(tracked[1..], id)
  }

  /** `tracked_request_end`: the request leaves the list and its waiters are woken. */
  function EndRequest(s: State, id: Id): State
    requires id in s.reqs
  {
    s.(tracked := Remove(s.tracked, id),
       reqs := map x | x in s.reqs && x != id ::
         if s.reqs[x].status == Waiting(id) then s.reqs[x].(status := Woken) else s.reqs[x],
       serialisingInFlight :=
         if s.reqs[id].serialising && s.serialisingInFlight > 0 then s.serialisingInFlight - 1 else s.serialisingInFlight)
  }

  // ----- steps -----

  /** A guest request as the entry points receive it. */
  datatype Input = Input(kind: Kind, align: nat, offset: nat, bytes: nat) {

    predicate Valid()
    {
      && align > 0
      && (kind.CopyOnRead? ==> kind.cluster > 0)
      && (kind.Write? ==> |kind.data| == bytes)
    }

    /** Reads are widened to whole blocks before they are tracked; writes are tracked as they come. */
    function Request(): Request
      requires Valid()
    {
      if kind.Write? then NewRequest(kind, align, offset, bytes)
      else
        var down := RoundDown(offset, align);
        NewRequest(kind, align, down, Ceil(offset + bytes, align) - down)
    }
  }

  datatype Step =
    | Arrive(id: Id, input: Input)
    | Resume(id: Id)
    | Transfer(id: Id)
    | Continue(id: Id)

  /** From entry to the first suspension. */
  function Arrival(s: State, id: Id, input: Input): State
    requires input.Valid()
  {
    var r := input.Request();
    var begun := Begin(s, id, r);
    Scan(if r.MustSerialise() then Mark(begun, id) else begun, id)
  }

  /** The data moves: the driver reads or writes for the current phase. */
  function Transferred(s: State, id: Id): State
    requires id in s.reqs && s.reqs[id].status == Issued && Ready(s.reqs[id])
  {
    var r := s.reqs[id];
    var a := r.align;
    match r.phase
    case HeadRead => s.(reqs := s.reqs[id := r.(status := Moved, head := ReadDisk(s.disk, RoundDown(r.offset, a), a))])
    case TailRead => s.(reqs := s.reqs[id := r.(status := Moved, tail := ReadDisk(s.disk, RoundDown(r.End(), a), a))])
    case DataWrite =>
      s.(disk := WriteDisk(s.disk, RoundDown(r.offset, a), r.Padded()), reqs := s.reqs[id := r.(status := Moved)])
    case DataRead => s.(reqs := s.reqs[id := r.(status := Moved, bounce := ReadDisk(s.disk, r.offset, r.bytes))])
    case CopyRead =>
      var down := RoundDown(r.offset, r.Unit());
      s.(reqs := s.reqs[id := r.(status := Moved, bounce := ReadDisk(s.disk, down, Ceil(r.End(), r.Unit()) - down))])
    case CopyWrite =>
      s.(disk := WriteDisk(s.disk, RoundDown(r.offset, r.Unit()), r.bounce), reqs := s.reqs[id := r.(status := Moved)])
  }

  /** The request has what its current phase uses. */
  predicate Ready(r: Request)
  {
    && r.align > 0 && r.Unit() > 0
    && (r.phase == DataWrite && r.status.Issued? ==>
          && r.kind.Write? && |r.kind.data| == r.bytes
          && (r.HeadUnaligned() ==> |r.head| == r.align) && (r.TailUnaligned() ==> |r.tail| == r.align))
  }

  /** After a transfer: on to the next phase, marking and waiting first where the code does, or done. */
  function Continued(s: State, id: Id): State
    requires id in s.reqs && Ready(s.reqs[id])
  {
    var r := s.reqs[id];
    var p := r.NextPhase();
    if p.None? then EndRequest(s, id)
    else
      var next := s.(reqs := s.reqs[id := r.(phase := p.value, status := Issued)]);
      if p.value == CopyWrite then next
      else Scan(if p.value == TailRead then Mark(next, id) else next, id)
  }

  predicate Enabled(s: State, step: Step)
  {
    match step
    case Arrive(id, input) => id !in s.reqs && input.Valid()
    case Resume(id) => id in s.reqs && s.reqs[id].status == Woken
    case Transfer(id) => id in s.reqs && s.reqs[id].status == Issued && Ready(s.reqs[id])
    case Continue(id) => id in s.reqs && s.reqs[id].status == Moved && Ready(s.reqs[id])
  }

  function Next(s: State, step: Step): State
    requires Enabled(s, step)
  {
    match step
    case Arrive(id, input) => Arrival(s, id, input)
    case Resume(id) => Scan(s, id)
    case Transfer(id) => Transferred(s, id)
    case Continue(id) => Continued(s, id)
  }

  function Initial(disk: Disk): State { State(disk, [], map[], 0) }
}
