/**
 * Writing a new snapshot table beside the old one and switching the image header over, on a
 * disk that may lose any of the writes made since it was last flushed.
 */
module SnapshotWriter {
  import opened Bytes
  import opened SnapshotTable

  // ----- the disk -----

  datatype PendingOf<D> = Pending(offset: nat, data: D)

  type Pending = PendingOf<seq<byte>>

  /** What a crash leaves: the stable contents with the pending writes that were kept. */
  function Crashed(stable: seq<byte>, pending: seq<Pending>, keep: seq<bool>): seq<byte>
    requires |keep| == |pending|
  {
    if pending == [] then stable
    else
      var n := |pending| - 1;
      var before := Crashed(stable, pending[..n], keep[..n]);
      if keep[n] then HostWrite(before, pending[n].offset, pending[n].data) else before
  }

  /** The snapshots an image names: the header says how many there are and where. */
  function DiskList(file: seq<byte>, diskSize: nat): Result<seq<Snapshot>>
  {
    if |file| < HEADER_END then Err(IoError)
    else
      var r := ReadAll(file, FromBE(file[HEADER_OFFSET..HEADER_END]), FromBE(file[HEADER_NB..HEADER_OFFSET]), diskSize);
      if r.Ok? then Ok(r.value.list) else Err(r.error)
  }

  /** The part of an image its list of snapshots is read from. */
  datatype Extent = Extent(base: nat, length: nat)

  ghost predicate Holds(file: seq<byte>, diskSize: nat, sns: seq<Snapshot>, e: Extent)
  {
    && HEADER_END <= |file| && e.base + e.length <= |file|
    && var n := FromBE(file[HEADER_NB..HEADER_OFFSET]);
    && FromBE(file[HEADER_OFFSET..HEADER_END]) == e.base
    && ReadAll(file, e.base, n, diskSize) == Ok(Listed(sns, e.base + e.length))
  }

  lemma HoldsIsListed(file: seq<byte>, diskSize: nat, sns: seq<Snapshot>, e: Extent)
    requires Holds(file, diskSize, sns, e)
    ensures DiskList(file, diskSize) == Ok(sns)
  {
  }

  /** `f` agrees with `f0` on the header's snapshot fields and on the old table. */
  ghost predicate KeepsOld(f0: seq<byte>, f: seq<byte>, e: Extent)
  {
    SameOn(f0, f, HEADER_NB, HEADER_END - HEADER_NB) && SameOn(f0, f, e.base, e.length)
  }

  predicate Avoids(offset: nat, length: nat, e: Extent)
  {
    HEADER_END <= offset && (offset + length <= e.base || e.base + e.length <= offset)
  }

  lemma KeptIsListed(f0: seq<byte>, f: seq<byte>, diskSize: nat, sns: seq<Snapshot>, e: Extent)
    requires Holds(f0, diskSize, sns, e) && KeepsOld(f0, f, e)
    ensures Holds(f, diskSize, sns, e)
  {
    SameOnPart(f0, f, HEADER_NB, HEADER_END - HEADER_NB, HEADER_NB, 4);
    SameOnPart(f0, f, HEADER_NB, HEADER_END - HEADER_NB, HEADER_OFFSET, 8);
    ReadStaysInside(f0, f, e.base, FromBE(f0[HEADER_NB..HEADER_OFFSET]), diskSize);
  }

  lemma WriteKeepsOld(f0: seq<byte>, f: seq<byte>, e: Extent, offset: nat, data: seq<byte>)
    requires KeepsOld(f0, f, e) && Avoids(offset, |data|, e)
    ensures KeepsOld(f0, HostWrite(f, offset, data), e)
  {
    var f' := HostWrite(f, offset, data);
    HostWriteFrame(f, offset, data, HEADER_NB, HEADER_END - HEADER_NB);
    HostWriteFrame(f, offset, data, e.base, e.length);
    SameOnTrans(f0, f, f', HEADER_NB, HEADER_END - HEADER_NB);
    SameOnTrans(f0, f, f', e.base, e.length);
  }

  predicate AllAvoid(pending: seq<Pending>, e: Extent)
  {
    forall i :: 0 <= i < |pending| ==> Avoids(pending[i].offset, |pending[i].data|, e)
  }

  /** Writes that stay clear of the old list leave it in every crash image. */
  lemma {:induction false} CrashKeepsOld(f0: seq<byte>, stable: seq<byte>, pending: seq<Pending>, keep: seq<bool>, e: Extent)
    requires KeepsOld(f0, stable, e) && AllAvoid(pending, e) && |keep| == |pending|
    ensures KeepsOld(f0, Crashed(stable, pending, keep), e)
  {
    if pending != [] {
      var n := |pending| - 1;
      CrashKeepsOld(f0, stable, pending[..n], keep[..n], e);
      if keep[n] {
        WriteKeepsOld(f0, Crashed(stable, pending[..n], keep[..n]), e, pending[n].offset, pending[n].data);
      }
    }
  }

  /** The state of the disk at one moment. */
  datatype MomentOf<F, P> = Moment(stable: F, pending: P)

  type Moment = MomentOf<seq<byte>, seq<Pending>>

  /** Whatever a crash at this moment keeps, the image names either the old list or the new one. */
  ghost predicate SafeMoment(m: Moment, diskSize: nat, was: seq<Snapshot>, now: seq<Snapshot>)
  {
    forall keep: seq<bool> :: |keep| == |m.pending| ==>
      var r := DiskList(Crashed(m.stable, m.pending, keep), diskSize);
      r == Ok(was) || r == Ok(now)
  }

  /** Whatever a crash at this moment keeps, the image names this list. */
  ghost predicate AlwaysNames(m: Moment, diskSize: nat, sns: seq<Snapshot>)
  {
    forall keep: seq<bool> :: |keep| == |m.pending| ==> DiskList(Crashed(m.stable, m.pending, keep), diskSize) == Ok(sns)
  }

  /** Before the switch: the new table's writes may be pending, the old list is out of their way. */
  ghost predicate Preparing(f0: seq<byte>, m: Moment, e: Extent)
  {
    KeepsOld(f0, m.stable, e) && AllAvoid(m.pending, e)
  }

  lemma PreparingIsSafe(f0: seq<byte>, m: Moment, e: Extent, diskSize: nat, was: seq<Snapshot>, now: seq<Snapshot>)
    requires Holds(f0, diskSize, was, e) && Preparing(f0, m, e)
    ensures SafeMoment(m, diskSize, was, now) == true
  {
    forall keep: seq<bool> | |keep| == |m.pending|
      ensures DiskList(Crashed(m.stable, m.pending, keep), diskSize) == Ok(was)
    {
      CrashKeepsOld(f0, m.stable, m.pending, keep, e);
      var f := Crashed(m.stable, m.pending, keep);
      KeptIsListed(f0, f, diskSize, was, e);
      HoldsIsListed(f, diskSize, was, e);
    }
  }

  function HeaderData(nb: nat, base: nat): (d: seq<byte>)
    ensures |d| == HEADER_END - HEADER_NB
  {
    ToBE(4, nb) + ToBE(8, base)
  }

  /** A list of `nb` snapshots can be read from `length` bytes at `base`, out of the header's way. */
  ghost predicate Listable(file: seq<byte>, diskSize: nat, sns: seq<Snapshot>, nb: nat, e: Extent)
  {
    && HEADER_END <= e.base < Pow256(8) && nb < Pow256(4) && e.base + e.length <= |file|
    && ReadAll(file, e.base, nb, diskSize) == Ok(Listed(sns, e.base + e.length))
  }

  lemma TableIsListable(file: seq<byte>, base: nat, sns: seq<Snapshot>, length: nat, diskSize: nat)
    requires AllOk(sns) && base % 8 == 0 && HEADER_END <= base < Pow256(8) && |sns| < Pow256(4)
    requires TableAt(file, base, sns, |sns|)
    requires length == EndOf(sns, |sns|) && length <= MAX_SNAPSHOTS_SIZE && base + length <= |file|
    ensures Listable(file, diskSize, sns, |sns|, Extent(base, length)) == true
  {
    ReadsAllBack(file, base, sns, length, diskSize);
    ListableIs(file, diskSize, sns, |sns|, base, length);
  }

  lemma ListableIs(file: seq<byte>, diskSize: nat, sns: seq<Snapshot>, nb: nat, base: nat, length: nat)
    requires HEADER_END <= base < Pow256(8) && nb < Pow256(4) && base + length <= |file|
    requires ReadAll(file, base, nb, diskSize) == Ok(Listed(sns, base + length))
    ensures Listable(file, diskSize, sns, nb, Extent(base, length)) == true
  {
  }

  /** The header written over a file that holds a new list names that list. */
  lemma SwitchedIsListed(file: seq<byte>, diskSize: nat, sns: seq<Snapshot>, nb: nat, e: Extent)
    requires Listable(file, diskSize, sns, nb, e)
    ensures Holds(HostWrite(file, HEADER_NB, HeaderData(nb, e.base)), diskSize, sns, e) == true
  {
    SwitchedTo(file, e.base, nb, e.length, sns, diskSize);
  }

  lemma SwitchedTo(file: seq<byte>, base: nat, nb: nat, length: nat, sns: seq<Snapshot>, diskSize: nat)
    requires HEADER_END <= base < Pow256(8) && nb < Pow256(4) && base + length <= |file|
    requires ReadAll(file, base, nb, diskSize) == Ok(Listed(sns, base + length))
    ensures Holds(HostWrite(file, HEADER_NB, HeaderData(nb, base)), diskSize, sns, Extent(base, length)) == true
  {
    HeaderNames(file, nb, base);
    HeaderKeepsRecords(file, base, base + length, nb, diskSize);
    ListAsBefore(file, HostWrite(file, HEADER_NB, HeaderData(nb, base)), base, nb, diskSize, Listed(sns, base + length));
    NamedIsHeld(HostWrite(file, HEADER_NB, HeaderData(nb, base)), base, nb, diskSize, Listed(sns, base + length), length);
  }

  lemma HeaderKeepsRecords(file: seq<byte>, base: nat, end: nat, nb: nat, diskSize: nat)
    requires HEADER_END <= base <= end <= |file|
    ensures var f := HostWrite(file, HEADER_NB, HeaderData(nb, base));
            && end <= |f|
            && Ends(RecordReader(file, diskSize)) == true
            && Agrees(RecordReader(file, diskSize), RecordReader(f, diskSize), base, end) == true
  {
    HostWriteFrame(file, HEADER_NB, HeaderData(nb, base), base, end - base);
    RecordsEnd(file, diskSize);
    RecordsAgree(file, HostWrite(file, HEADER_NB, HeaderData(nb, base)), base, end, diskSize);
  }

  lemma ListAsBefore(file: seq<byte>, f: seq<byte>, base: nat, nb: nat, diskSize: nat, listed: Listed)
    requires ReadAll(file, base, nb, diskSize) == Ok(listed)
    requires Ends(RecordReader(file, diskSize)) == true
    requires Agrees(RecordReader(file, diskSize), RecordReader(f, diskSize), base, listed.end) == true
    ensures ReadAll(f, base, nb, diskSize) == Ok(listed)
  {
    SameWalk(RecordReader(file, diskSize), RecordReader(f, diskSize), base, nb, listed);
  }

  lemma NamedIsHeld(f: seq<byte>, base: nat, nb: nat, diskSize: nat, listed: Listed, length: nat)
    requires HEADER_END <= |f| && base + length <= |f|
    requires FromBE(f[HEADER_NB..HEADER_OFFSET]) == nb && FromBE(f[HEADER_OFFSET..HEADER_END]) == base
    requires ReadAll(f, base, nb, diskSize) == Ok(listed) && listed.end == base + length
    ensures Holds(f, diskSize, listed.list, Extent(base, length)) == true
  {
  }

  lemma SameWalk(read: Reader, read': Reader, base: nat, n: nat, listed: Listed)
    requires Walk(read, base, n) == Ok(listed) && Ends(read) && Agrees(read, read', base, listed.end)
    ensures Walk(read', base, n) == Ok(listed)
  {
    WalkAgrees(read, read', base, n, listed.end);
  }

  lemma HeaderNames(file: seq<byte>, nb: nat, base: nat)
    requires nb < Pow256(4) && base < Pow256(8)
    ensures var f := HostWrite(file, HEADER_NB, HeaderData(nb, base));
            && HEADER_END <= |f|
            && FromBE(f[HEADER_NB..HEADER_OFFSET]) == nb && FromBE(f[HEADER_OFFSET..HEADER_END]) == base
  {
    var d := HeaderData(nb, base);
    var f := HostWrite(file, HEADER_NB, d);
    HostWriteData(file, HEADER_NB, d);
    SliceOfSlice(f, HEADER_NB, |d|, 0, 4);
    SliceOfSlice(f, HEADER_NB, |d|, 4, 8);
    assert d[0..4] == ToBE(4, nb) && d[4..12] == ToBE(8, base);
    BigEndianRoundTrip(4, nb);
    BigEndianRoundTrip(8, base);
  }

  /** The switch itself: the new table is stable, and the header is the only pending write. */
  lemma SwitchingIsSafe(f0: seq<byte>, stable: seq<byte>, e: Extent, diskSize: nat, was: seq<Snapshot>,
                        sns: seq<Snapshot>, nb: nat, e': Extent)
    requires Holds(f0, diskSize, was, e) && KeepsOld(f0, stable, e)
    requires Listable(stable, diskSize, sns, nb, e')
    ensures SafeMoment(Moment(stable, [Pending(HEADER_NB, HeaderData(nb, e'.base))]), diskSize, was, sns) == true
  {
    var d := HeaderData(nb, e'.base);
    var pending := [Pending(HEADER_NB, d)];
    SwitchedIsListed(stable, diskSize, sns, nb, e');
    HoldsIsListed(HostWrite(stable, HEADER_NB, d), diskSize, sns, e');
    KeptIsListed(f0, stable, diskSize, was, e);
    HoldsIsListed(stable, diskSize, was, e);
    forall keep: seq<bool> | |keep| == 1
      ensures Crashed(stable, pending, keep) == if keep[0] then HostWrite(stable, HEADER_NB, d) else stable
    {
      assert pending[..0] == [] && keep[..0] == [];
      assert Crashed(stable, pending[..0], keep[..0]) == stable;
    }
  }

  /** Once it is flushed, the new list is the one. */
  lemma SwitchedIsSafe(file: seq<byte>, diskSize: nat, was: seq<Snapshot>, sns: seq<Snapshot>, nb: nat, e': Extent)
    requires Listable(file, diskSize, sns, nb, e')
    ensures SafeMoment(Moment(HostWrite(file, HEADER_NB, HeaderData(nb, e'.base)), []), diskSize, was, sns) == true
  {
    SwitchedIsListed(file, diskSize, sns, nb, e');
    HoldsIsListed(HostWrite(file, HEADER_NB, HeaderData(nb, e'.base)), diskSize, sns, e');
  }

  /** If that flush fails and a crash loses the header's write, an image of no snapshots still has none, however good its new table. */
  lemma SwitchLost(sn: Snapshot, diskSize: nat)
    requires SnapshotOk(sn)
    ensures var f := HostWrite(Zeros(SECTOR), SECTOR, Record(sn));
            var d := HeaderData(1, SECTOR);
            && DiskList(HostWrite(f, HEADER_NB, d), diskSize) == Ok([sn])
            && DiskList(Crashed(f, [Pending(HEADER_NB, d)], [false]), diskSize) == Ok([])
  {
    var f := HostWrite(Zeros(SECTOR), SECTOR, Record(sn));
    var p := [Pending(HEADER_NB, HeaderData(1, SECTOR))];
    NewTable(sn, f, diskSize);
    SwitchedIsListed(f, diskSize, [sn], 1, Extent(SECTOR, RecordLength(sn)));
    HoldsIsListed(HostWrite(f, HEADER_NB, HeaderData(1, SECTOR)), diskSize, [sn], Extent(SECTOR, RecordLength(sn)));
    assert p[..0] == [] && [false][..0] == [];
    assert Crashed(f, p, [false]) == f;
    NoTable(f, diskSize);
  }

  lemma NewTable(sn: Snapshot, f: seq<byte>, diskSize: nat)
    requires SnapshotOk(sn) && f == HostWrite(Zeros(SECTOR), SECTOR, Record(sn))
    ensures Listable(f, diskSize, [sn], 1, Extent(SECTOR, RecordLength(sn))) == true
    ensures HEADER_END <= |f| && f[HEADER_NB..HEADER_OFFSET] == Zeros(4) && f[HEADER_OFFSET..HEADER_END] == Zeros(8)
  {
    RecordHasLength(sn);
    NewFile(f, Record(sn));
    assert EndOf([sn], 0) == 0 && EndOf([sn], 1) == RecordLength(sn);
    assert RecordAt(f, SECTOR, [sn], 0);
    assert Pow256(2) == 65536 && Pow256(4) == 0x1_0000_0000 && Pow256(8) == TWO64;
    TableIsListable(f, SECTOR, [sn], RecordLength(sn), diskSize);
  }

  lemma NewFile(f: seq<byte>, rec: seq<byte>)
    requires f == HostWrite(Zeros(SECTOR), SECTOR, rec)
    ensures Placed(f, SECTOR, rec)
    ensures HEADER_END <= |f| && f[HEADER_NB..HEADER_OFFSET] == Zeros(4) && f[HEADER_OFFSET..HEADER_END] == Zeros(8)
  {
    HostWriteData(Zeros(SECTOR), SECTOR, rec);
    HostWriteFrame(Zeros(SECTOR), SECTOR, rec, 0, HEADER_END);
    assert forall k :: 0 <= k < HEADER_END ==> f[k] == f[0..HEADER_END][k] == 0;
  }

  lemma NoTable(f: seq<byte>, diskSize: nat)
    requires HEADER_END <= |f| && f[HEADER_NB..HEADER_OFFSET] == Zeros(4) && f[HEADER_OFFSET..HEADER_END] == Zeros(8)
    ensures DiskList(f, diskSize) == Ok([])
  {
    FromBEZeros(4);
    FromBEZeros(8);
  }

  // ----- the new table takes shape -----

  /** `done` bytes of record `k` are in place, and all records before it. */
  ghost predicate Shaping(file: seq<byte>, base: nat, sns: seq<Snapshot>, k: nat, done: seq<byte>)
  {
    && k < |sns| && TableAt(file, base, sns, k) && base + EndOf(sns, k) <= |file|
    && (done != [] ==> Placed(file, base + RoundUp(EndOf(sns, k), 8), done))
  }

  /** Where the record of snapshot `k` starts. */
  predicate StartsAt(at: nat, base: nat, sns: seq<Snapshot>, k: nat)
  {
    k < |sns| && at == base + RoundUp(EndOf(sns, k), 8)
  }

  lemma PlacedStays(file: seq<byte>, at: nat, bytes: seq<byte>, offset: nat, data: seq<byte>)
    requires Placed(file, at, bytes) && at + |bytes| <= offset
    ensures Placed(HostWrite(file, offset, data), at, bytes) == true
  {
    HostWriteFrame(file, offset, data, at, |bytes|);
  }

  lemma RecordUntouched(file: seq<byte>, base: nat, sns: seq<Snapshot>, j: nat, k: nat, offset: nat, data: seq<byte>)
    requires j < k <= |sns| && RecordAt(file, base, sns, j) == true && base + EndOf(sns, k) <= offset
    ensures RecordAt(HostWrite(file, offset, data), base, sns, j) == true
  {
    EndsGrow(sns, j, k);
    RecordHasLength(sns[j]);
    PlacedStays(file, base + RoundUp(EndOf(sns, j), 8), Record(sns[j]), offset, data);
  }

  lemma {:induction false} RecordsBefore(file: seq<byte>, base: nat, sns: seq<Snapshot>, j: nat, k: nat,
                                         offset: nat, data: seq<byte>, file': seq<byte>)
    requires j <= k <= |sns| && TableAt(file, base, sns, j) == true && base + EndOf(sns, k) <= offset
    requires file' == HostWrite(file, offset, data)
    ensures TableAt(file', base, sns, j) == true
  {
    if j > 0 {
      OneRecordLess(file, base, sns, j - 1);
      RecordsBefore(file, base, sns, j - 1, k, offset, data, file');
      RecordUntouched(file, base, sns, j - 1, k, offset, data);
      OneMoreRecord(file', base, sns, j - 1);
    }
  }

  lemma OneRecordLess(file: seq<byte>, base: nat, sns: seq<Snapshot>, k: nat)
    requires k < |sns| && TableAt(file, base, sns, k + 1)
    ensures TableAt(file, base, sns, k) == true && RecordAt(file, base, sns, k) == true
  {
  }

  lemma OneMoreRecord(file: seq<byte>, base: nat, sns: seq<Snapshot>, k: nat)
    requires k < |sns| && TableAt(file, base, sns, k) && RecordAt(file, base, sns, k)
    ensures TableAt(file, base, sns, k + 1) == true
  {
  }

  lemma JoinSlices(f: seq<byte>, at: nat, n: nat, m: nat)
    requires at + n + m <= |f|
    ensures f[at..at + (n + m)] == f[at..at + n] + f[at + n..at + n + m]
  {
  }

  /** A piece written right behind what is there of a run of bytes lengthens it. */
  lemma RunGrows(file: seq<byte>, at: nat, done: seq<byte>, piece: seq<byte>)
    requires done != [] ==> Placed(file, at, done)
    ensures Placed(HostWrite(file, at + |done|, piece), at, done + piece) == true
  {
    var f := HostWrite(file, at + |done|, piece);
    HostWriteData(file, at + |done|, piece);
    if done == [] {
      assert [] + piece == piece;
    } else {
      HostWriteFrame(file, at + |done|, piece, at, |done|);
      JoinSlices(f, at, |done|, |piece|);
    }
  }

  lemma PieceWritten(file: seq<byte>, base: nat, sns: seq<Snapshot>, k: nat, at: nat, done: seq<byte>, piece: seq<byte>)
    requires Shaping(file, base, sns, k, done) == true && StartsAt(at, base, sns, k) == true
    ensures Shaping(HostWrite(file, at + |done|, piece), base, sns, k, done + piece) == true
  {
    PieceFits(file, base, sns, k, at, done, piece);
    assert Shaping(file, base, sns, k, done) && StartsAt(at, base, sns, k);
    RunGrows(file, at, done, piece);
    ShapingIs(HostWrite(file, at + |done|, piece), base, sns, k, at, done + piece);
  }

  lemma PieceFits(file: seq<byte>, base: nat, sns: seq<Snapshot>, k: nat, at: nat, done: seq<byte>, piece: seq<byte>)
    requires Shaping(file, base, sns, k, done) == true && StartsAt(at, base, sns, k) == true
    ensures TableAt(HostWrite(file, at + |done|, piece), base, sns, k) == true
  {
    assert Shaping(file, base, sns, k, done) && StartsAt(at, base, sns, k);
    RecordsBefore(file, base, sns, k, k, at + |done|, piece, HostWrite(file, at + |done|, piece));
  }

  lemma ShapingIs(f: seq<byte>, base: nat, sns: seq<Snapshot>, k: nat, at: nat, done: seq<byte>)
    requires k < |sns| && TableAt(f, base, sns, k) == true && StartsAt(at, base, sns, k)
    requires Placed(f, at, done)
    ensures Shaping(f, base, sns, k, done) == true
  {
  }

  lemma RecordComplete(file: seq<byte>, base: nat, sns: seq<Snapshot>, k: nat, rec: seq<byte>)
    requires k < |sns| && rec == Record(sns[k]) && Shaping(file, base, sns, k, rec)
    ensures TableAt(file, base, sns, k + 1) == true && base + EndOf(sns, k + 1) <= |file|
  {
    RecordHasLength(sns[k]);
    OneMoreRecord(file, base, sns, k);
    EndOfNext(sns, k);
  }

  // ----- the writer -----

  ghost predicate AllSafe(ms: seq<Moment>, diskSize: nat, was: seq<Snapshot>, now: seq<Snapshot>)
  {
    forall i :: 0 <= i < |ms| ==> SafeMoment(ms[i], diskSize, was, now)
  }

  lemma SafeMore(ms: seq<Moment>, m: Moment, diskSize: nat, was: seq<Snapshot>, now: seq<Snapshot>)
    requires AllSafe(ms, diskSize, was, now) && SafeMoment(m, diskSize, was, now)
    ensures AllSafe(ms + [m], diskSize, was, now) == true
  {
  }

  /** The space for the new table: behind the header's fields and apart from the old table. */
  predicate Apart(base: nat, length: nat, e: Extent)
  {
    HEADER_END <= base && (base + length <= e.base || e.base + e.length <= base)
  }

  /** What is fixed while a table is written: where it goes, the old list and where that is. */
  datatype JobOf<F, S> = Job(base: nat, length: nat, f0: F, old': Extent, was: S, now: S, diskSize: nat)

  type Job = JobOf<seq<byte>, seq<Snapshot>>

  ghost predicate JobOk(j: Job)
  {
    && Apart(j.base, j.length, j.old') && Holds(j.f0, j.diskSize, j.was, j.old')
    && AllOk(j.now) && j.base % 8 == 0 && j.base < Pow256(8) && |j.now| < Pow256(4)
    && j.length == EndOf(j.now, |j.now|) && j.length <= MAX_SNAPSHOTS_SIZE
  }

  /** Until the switch: every moment so far was safe, and the old list is out of the writes' way. */
  ghost predicate Filling(j: Job, file: seq<byte>, m: Moment, ms: seq<Moment>)
  {
    KeepsOld(j.f0, file, j.old') && Preparing(j.f0, m, j.old') && AllSafe(ms, j.diskSize, j.was, j.now)
  }

  lemma FillingAfterWrite(j: Job, file: seq<byte>, m: Moment, ms: seq<Moment>, offset: nat, data: seq<byte>)
    requires JobOk(j) == true && Filling(j, file, m, ms) == true
    requires j.base <= offset && offset + |data| <= j.base + j.length
    ensures var m' := Moment(m.stable, m.pending + [Pending(offset, data)]);
            Filling(j, HostWrite(file, offset, data), m', ms + [m']) == true
  {
    var m' := Moment(m.stable, m.pending + [Pending(offset, data)]);
    assert JobOk(j) && Filling(j, file, m, ms);
    WriteKeepsOld(j.f0, file, j.old', offset, data);
    assert Preparing(j.f0, m', j.old');
    PreparingIsSafe(j.f0, m', j.old', j.diskSize, j.was, j.now);
    SafeMore(ms, m', j.diskSize, j.was, j.now);
  }

  lemma FillingGoesOn(j: Job, file: seq<byte>, m: Moment, ms: seq<Moment>)
    requires JobOk(j) == true && Filling(j, file, m, ms) == true
    ensures Filling(j, file, m, ms + [m]) == true
    ensures Filling(j, file, Moment(file, []), ms + [Moment(file, [])]) == true
  {
    assert JobOk(j) && Filling(j, file, m, ms);
    PreparingIsSafe(j.f0, m, j.old', j.diskSize, j.was, j.now);
    SafeMore(ms, m, j.diskSize, j.was, j.now);
    PreparingIsSafe(j.f0, Moment(file, []), j.old', j.diskSize, j.was, j.now);
    SafeMore(ms, Moment(file, []), j.diskSize, j.was, j.now);
  }

  lemma PieceIsSafe(j: Job, file: seq<byte>, m: Moment, ms: seq<Moment>, k: nat, at: nat, done: seq<byte>,
                    offset: nat, piece: seq<byte>, m': Moment)
    requires JobOk(j) == true && Filling(j, file, m, ms) == true
    requires k < |j.now| && Shaping(file, j.base, j.now, k, done) == true
    requires StartsAt(at, j.base, j.now, k) == true && offset == at + |done|
    requires j.base <= offset && offset + |piece| <= j.base + j.length
    requires m' == Moment(m.stable, m.pending + [Pending(offset, piece)])
    ensures Filling(j, HostWrite(file, offset, piece), m', ms + [m']) == true && Filling(j, file, m, ms + [m]) == true
    ensures Shaping(HostWrite(file, offset, piece), j.base, j.now, k, done + piece) == true
  {
    PieceWritten(file, j.base, j.now, k, at, done, piece);
    PieceFilled(j, file, m, ms, offset, piece, m');
  }

  lemma PieceFilled(j: Job, file: seq<byte>, m: Moment, ms: seq<Moment>, offset: nat, piece: seq<byte>, m': Moment)
    requires JobOk(j) == true && Filling(j, file, m, ms) == true
    requires j.base <= offset && offset + |piece| <= j.base + j.length
    requires m' == Moment(m.stable, m.pending + [Pending(offset, piece)])
    ensures Filling(j, HostWrite(file, offset, piece), m', ms + [m']) == true && Filling(j, file, m, ms + [m]) == true
  {
    FillingAfterWrite(j, file, m, ms, offset, piece);
    FillingGoesOn(j, file, m, ms);
  }

  /** All moments so far were safe, and so is `m`. */
  ghost predicate AtRest(j: Job, ms: seq<Moment>, m: Moment)
  {
    AllSafe(ms, j.diskSize, j.was, j.now) && SafeMoment(m, j.diskSize, j.was, j.now)
  }

  lemma ComesToRest(j: Job, ms: seq<Moment>, m: Moment)
    requires AllSafe(ms, j.diskSize, j.was, j.now) && SafeMoment(m, j.diskSize, j.was, j.now)
    ensures AtRest(j, ms + [m], m) == true && AllSafe(ms + [m], j.diskSize, j.was, j.now) == true
  {
    SafeMore(ms, m, j.diskSize, j.was, j.now);
  }

  /** The switch: the header write is not made, or pending, or done and stable. */
  lemma SwitchIsSafe(j: Job, stable: seq<byte>, ms: seq<Moment>, file': seq<byte>)
    requires JobOk(j) && Filling(j, stable, Moment(stable, []), ms)
    requires TableAt(stable, j.base, j.now, |j.now|) && j.base + j.length <= |stable|
    requires file' == HostWrite(stable, HEADER_NB, HeaderData(|j.now|, j.base))
    ensures var m0, m1 := Moment(stable, []), Moment(stable, [Pending(HEADER_NB, HeaderData(|j.now|, j.base))]);
            && AtRest(j, ms + [m0], m0) == true && AtRest(j, ms + [m1], m1) == true
            && Switching(j, ms + [m1], m1, file') == true
  {
    var e' := Extent(j.base, j.length);
    var m0, m1 := Moment(stable, []), Moment(stable, [Pending(HEADER_NB, HeaderData(|j.now|, j.base))]);
    TableIsListable(stable, j.base, j.now, j.length, j.diskSize);
    PreparingIsSafe(j.f0, m0, j.old', j.diskSize, j.was, j.now);
    SwitchingIsSafe(j.f0, stable, j.old', j.diskSize, j.was, j.now, |j.now|, e');
    SwitchedIsSafe(stable, j.diskSize, j.was, j.now, |j.now|, e');
    SwitchedIsListed(stable, j.diskSize, j.now, |j.now|, e');
    ComesToRest(j, ms, m0);
    ComesToRest(j, ms, m1);
    KeptIsListed(j.f0, stable, j.diskSize, j.was, j.old');
    HoldsIsListed(stable, j.diskSize, j.was, j.old');
    ComesToRest(j, ms + [m1], m1);
    ComesToRest(j, ms + [m1], Moment(file', []));
  }

  /** The header write is pending; once flushed, `file` is what is stable. */
  ghost predicate Switching(j: Job, ms: seq<Moment>, m: Moment, file: seq<byte>)
  {
    && AtRest(j, ms + [m], m) && AtRest(j, ms + [Moment(file, [])], Moment(file, []))
    && Switched(j, false, file, m) && Switched(j, true, file, Moment(file, []))
  }

  /** After the switch reads find the new list; unless the header was flushed, its write is pending over the old one. */
  ghost predicate Switched(j: Job, flushed: bool, file: seq<byte>, m: Moment)
  {
    && Holds(file, j.diskSize, j.now, Extent(j.base, j.length))
    && if flushed then m == Moment(file, []) else |m.pending| == 1 && DiskList(m.stable, j.diskSize) == Ok(j.was)
  }

  /** So the new list is there for good exactly if the header was flushed (or the lists are equal). */
  lemma LastsIff(j: Job, flushed: bool, file: seq<byte>, m: Moment)
    requires Switched(j, flushed, file, m) && SafeMoment(m, j.diskSize, j.was, j.now)
    ensures AlwaysNames(m, j.diskSize, j.now) == (flushed || j.was == j.now)
  {
    HoldsIsListed(file, j.diskSize, j.now, Extent(j.base, j.length));
    if !flushed {
      assert m.pending[..0] == [] && [false][..0] == [];
      assert Crashed(m.stable, m.pending, [false]) == m.stable;
    }
  }

  /** Sizes only grow, so the limit is met by the whole table or by none of its parts. */
  lemma SizeWithinLimit(sns: seq<Snapshot>, k: nat)
    requires k <= |sns|
    ensures EndOf(sns, k) > MAX_SNAPSHOTS_SIZE ==> EndOf(sns, |sns|) > MAX_SNAPSHOTS_SIZE
  {
    EndsGrow(sns, k, |sns|);
  }

  class SnapshotStore {
    const diskSize: nat
    /** The file as reads see it. */
    var file: seq<byte>
    /** What is on stable storage, and the writes made since. */
    ghost var stable: seq<byte>
    ghost var pending: seq<Pending>
    /** The disk after every write and flush of the last operation. */
    ghost var moments: seq<Moment>
    /** How many host operations have failed. */
    ghost var failures: nat
    var snapshots: seq<Snapshot>
    var tableOffset: nat
    var tableSize: nat

    constructor (file: seq<byte>, snapshots: seq<Snapshot>, tableOffset: nat, tableSize: nat, diskSize: nat)
      ensures this.file == stable == file && pending == [] && moments == [] && this.diskSize == diskSize
      ensures failures == 0
      ensures this.snapshots == snapshots && this.tableOffset == tableOffset && this.tableSize == tableSize
    {
      this.diskSize, failures := diskSize, 0;
      this.file, this.snapshots, this.tableOffset, this.tableSize := file, snapshots, tableOffset, tableSize;
      stable, pending, moments := file, [], [];
    }

    /** A write; one that fails may or may not have been made. */
    method Pwrite(offset: nat, data: seq<byte>) returns (ok: bool)
      modifies `file, `pending, `moments, `failures
      ensures failures == old(failures) + if ok then 0 else 1
      ensures moments == old(moments) + [Moment(stable, pending)]
      ensures || (file == HostWrite(old(file), offset, data) && pending == old(pending) + [Pending(offset, data)])
              || (!ok && file == old(file) && pending == old(pending))
    {
      ok := *;
      failures := failures + if ok then 0 else 1;
      var done: bool := *;
      if ok || done {
        file := HostWrite(file, offset, data);
        pending := pending + [Pending(offset, data)];
      }
      moments := moments + [Moment(stable, pending)];
    }

    /** A flush makes all writes stable; one that fails promises nothing about them. */
    method Flush() returns (ok: bool)
      modifies `stable, `pending, `moments, `failures
      ensures failures == old(failures) + if ok then 0 else 1
      ensures moments == old(moments) + [Moment(stable, pending)]
      ensures if ok then stable == file && pending == [] else stable == old(stable) && pending == old(pending)
    {
      ok := *;
      failures := failures + if ok then 0 else 1;
      if ok {
        stable, pending := file, [];
      }
      moments := moments + [Moment(stable, pending)];
    }

    /** The first pass: the size of the table, which is too big exactly when it is over the limit. */
    method SizeOfTable() returns (size: Result<nat>)
      ensures size.Ok? <==> EndOf(snapshots, |snapshots|) <= MAX_SNAPSHOTS_SIZE
      ensures size.Ok? ==> size.value == EndOf(snapshots, |snapshots|)
      ensures size.Err? ==> size.error == TooBig
    {
      var offset: nat := 0;
      for i := 0 to |snapshots|
        invariant offset == EndOf(snapshots, i) <= MAX_SNAPSHOTS_SIZE
      {
        var sn := snapshots[i];
        offset := RoundUp(offset, 8);
        offset := offset + HEADER_SIZE;
        offset := offset + EXTRA_SIZE;
        offset := offset + |sn.id|;
        offset := offset + |sn.name|;
        if offset > MAX_SNAPSHOTS_SIZE {
          SizeWithinLimit(snapshots, i + 1);
          return Err(TooBig);
        }
      }
      size := Ok(offset);
    }

    /** One of the four writes of a record. */
    method WritePiece(ghost at: nat, ghost k: nat, ghost done: seq<byte>, offset: nat, piece: seq<byte>, ghost j: Job) returns (ok: bool)
      requires JobOk(j) == true && Filling(j, file, Moment(stable, pending), moments) == true && j.now == snapshots
      requires k < |snapshots| && Shaping(file, j.base, snapshots, k, done) == true
      requires StartsAt(at, j.base, snapshots, k) == true && offset == at + |done|
      requires j.base <= offset && offset + |piece| <= j.base + j.length
      modifies `file, `pending, `moments, `failures
      ensures failures == old(failures) + if ok then 0 else 1
      ensures Filling(j, file, Moment(stable, pending), moments) == true
      ensures ok ==> Shaping(file, j.base, snapshots, k, done + piece) == true
    {
      PieceIsSafe(j, file, Moment(stable, pending), moments, k, at, done, offset, piece,
                  Moment(stable, pending + [Pending(offset, piece)]));
      ok := Pwrite(offset, piece);
    }

    /** The header and the extra data of a record. */
    method WriteFixedPart(k: nat, offset: nat, ghost j: Job) returns (ok: bool)
      requires JobOk(j) == true && Filling(j, file, Moment(stable, pending), moments) == true && j.now == snapshots
      requires k < |snapshots| && Shaping(file, j.base, snapshots, k, []) == true
      requires StartsAt(offset, j.base, snapshots, k) == true
      requires offset + RecordLength(snapshots[k]) <= j.base + j.length
      modifies `file, `pending, `moments, `failures
      ensures failures == old(failures) + if ok then 0 else 1
      ensures Filling(j, file, Moment(stable, pending), moments) == true
      ensures ok ==> Shaping(file, j.base, snapshots, k, FixedPart(snapshots[k])) == true
    {
      var sn := snapshots[k];
      RecordSizes();
      var h, extra := EncodeRecord(HEADER_WIDTHS, HeaderFields(sn)), EncodeRecord(EXTRA_WIDTHS, ExtraFields(sn));
      ok := WritePiece(offset, k, [], offset, h, j);
      if !ok { return; }
      assert [] + h == h;
      ok := WritePiece(offset, k, h, offset + HEADER_SIZE, extra, j);
    }

    /** The id and the name of a record, behind its fixed part. */
    method WriteStrings(k: nat, at: nat, ghost j: Job) returns (ok: bool)
      requires JobOk(j) == true && Filling(j, file, Moment(stable, pending), moments) == true && j.now == snapshots
      requires k < |snapshots| && Shaping(file, j.base, snapshots, k, FixedPart(snapshots[k])) == true
      requires StartsAt(at, j.base, snapshots, k) == true && j.base <= at
      requires at + RecordLength(snapshots[k]) <= j.base + j.length
      modifies `file, `pending, `moments, `failures
      ensures failures == old(failures) + if ok then 0 else 1
      ensures Filling(j, file, Moment(stable, pending), moments) == true
      ensures var sn := snapshots[k];
              ok ==> Shaping(file, j.base, snapshots, k, FixedPart(sn) + sn.id + sn.name) == true
    {
      var sn := snapshots[k];
      FixedPartLength(sn);
      var offset := at + HEADER_SIZE + EXTRA_SIZE;
      ok := WritePiece(at, k, FixedPart(sn), offset, sn.id, j);
      if !ok { return; }
      offset := offset + |sn.id|;
      ok := WritePiece(at, k, FixedPart(sn) + sn.id, offset, sn.name, j);
    }

    /** The second pass for one snapshot. */
    method WriteRecord(k: nat, from: nat, ghost j: Job) returns (ok: bool, end: nat)
      requires JobOk(j) == true && Filling(j, file, Moment(stable, pending), moments) == true && j.now == snapshots
      requires k < |snapshots| && from == j.base + EndOf(snapshots, k)
      requires Shaping(file, j.base, snapshots, k, []) == true
      modifies `file, `pending, `moments, `failures
      ensures failures == old(failures) + if ok then 0 else 1
      ensures Filling(j, file, Moment(stable, pending), moments) == true
      ensures ok ==> TableAt(file, j.base, snapshots, k + 1) == true && end == j.base + EndOf(snapshots, k + 1) <= |file|
    {
      var sn := snapshots[k];
      var at := RoundUp(from, 8);
      RecordPlace(j, k, from, at);
      end := 0;
      ok := WriteFixedPart(k, at, j);
      if !ok { return; }
      ok := WriteStrings(k, at, j);
      if !ok { return; }
      end := at + HEADER_SIZE + EXTRA_SIZE + |sn.id| + |sn.name|;
      FixedPartLength(sn);
      RecordComplete(file, j.base, snapshots, k, FixedPart(sn) + sn.id + sn.name);
    }

    /** The second pass. It ends where the first said it would. */
    method WriteTable(base: nat, ghost j: Job) returns (ok: bool, end: nat)
      requires JobOk(j) == true && Filling(j, file, Moment(stable, pending), moments) == true
      requires j.now == snapshots && j.base == base && base <= |file|
      modifies `file, `pending, `moments, `failures
      ensures failures == old(failures) + if ok then 0 else 1
      ensures Filling(j, file, Moment(stable, pending), moments) == true
      ensures ok ==> TableAt(file, base, snapshots, |snapshots|) == true && end == base + j.length <= |file|
    {
      ok, end := true, base;
      for k := 0 to |snapshots|
        invariant Filling(j, file, Moment(stable, pending), moments) == true
        invariant failures == old(failures)
        invariant ok && TableAt(file, base, snapshots, k) == true && end == base + EndOf(snapshots, k) <= |file|
      {
        ShapingStarts(file, base, snapshots, k);
        ok, end := WriteRecord(k, end, j);
        if !ok { return; }
      }
    }

    /**
     * Writes the table for the snapshots in memory into new space at `base` (none if the
     * allocation failed) and switches the header over. At every moment, whatever a crash keeps of
     * the writes not yet flushed, the image names the old list or the new one. It fails only
     * if the table is too large, has no space or a host operation fails. That the last flush fails
     * goes unnoticed; the new list then lasts only if the disk keeps the header by itself.
     */
    method WriteSnapshots(base: Option<nat>, ghost was: seq<Snapshot>, ghost old': Extent) returns (ok: bool)
      requires AllOk(snapshots) && |snapshots| < Pow256(4)
      requires Holds(stable, diskSize, was, old') && KeepsOld(stable, file, old') && AllAvoid(pending, old')
      requires base.Some? ==>
                 && base.value % 8 == 0 && base.value < Pow256(8) && base.value <= |file|
                 && Apart(base.value, EndOf(snapshots, |snapshots|), old')
      modifies this
      ensures snapshots == old(snapshots)
      ensures AllSafe(moments, diskSize, was, snapshots) == true
      ensures SafeMoment(Moment(stable, pending), diskSize, was, snapshots) == true
      ensures ok ==> base.Some? && failures <= old(failures) + 1
      ensures !ok ==> base.None? || EndOf(snapshots, |snapshots|) > MAX_SNAPSHOTS_SIZE || failures == old(failures) + 1
      ensures ok ==> tableOffset == base.value && tableSize == EndOf(snapshots, |snapshots|)
      ensures ok ==> Holds(file, diskSize, snapshots, Extent(tableOffset, tableSize)) == true
      ensures ok ==> AlwaysNames(Moment(stable, pending), diskSize, snapshots) ==
                     (failures == old(failures) || was == snapshots)
      ensures !ok ==> tableOffset == old(tableOffset) && tableSize == old(tableSize)
      ensures EndOf(snapshots, |snapshots|) > MAX_SNAPSHOTS_SIZE ==> !ok && file == old(file)
    {
      moments := [];
      PreparingIsSafe(stable, Moment(stable, pending), old', diskSize, was, snapshots);
      var size := SizeOfTable();
      if size.Err? || base.None? {
        return false;
      }
      ghost var length := EndOf(snapshots, |snapshots|);
      ghost var j := Job(base.value, length, stable, old', was, snapshots, diskSize);
      assert JobOk(j);
      FillingGoesOn(j, file, Moment(stable, pending), moments);
      ok := Flush();
      if !ok {
        NowIsSafe(j, file, Moment(stable, pending), moments);
        return;
      }
      var flushed;
      ok, flushed := FillAndSwitch(base.value, size.value, j);
      if ok {
        LastsIff(j, flushed, file, Moment(stable, pending));
      }
    }

    method FillAndSwitch(base: nat, size: nat, ghost j: Job) returns (ok: bool, flushed: bool)
      requires JobOk(j) == true && Filling(j, file, Moment(stable, pending), moments) == true
      requires j.now == snapshots && j.base == base <= |file| && j.length == size && j.diskSize == diskSize
      modifies this
      ensures snapshots == old(snapshots) && AllSafe(moments, j.diskSize, j.was, j.now) == true
      ensures SafeMoment(Moment(stable, pending), j.diskSize, j.was, j.now) == true
      ensures failures == old(failures) + if ok && flushed then 0 else 1
      ensures ok ==> tableOffset == base && tableSize == size
                     && Switched(j, flushed, file, Moment(stable, pending)) == true
      ensures !ok ==> tableOffset == old(tableOffset) && tableSize == old(tableSize)
    {
      flushed := false;
      var end;
      ok, end := WriteTable(base, j);
      if !ok {
        NowIsSafe(j, file, Moment(stable, pending), moments);
        return;
      }
      FillingGoesOn(j, file, Moment(stable, pending), moments);
      ok := Flush();
      NowIsSafe(j, file, Moment(stable, pending), moments);
      if !ok { return; }
      ok, flushed := Switch(base, j);
      if ok {
        tableOffset, tableSize := base, size;
      }
    }

    /** The header is written only now that the table is stable. */
    method WriteHeader(base: nat, ghost j: Job) returns (ok: bool)
      requires JobOk(j) == true && Filling(j, file, Moment(stable, pending), moments) == true
      requires stable == file && pending == [] && j.now == snapshots && j.base == base
      requires TableAt(file, base, snapshots, |snapshots|) == true && base + j.length <= |file|
      modifies `file, `pending, `moments, `failures
      ensures failures == old(failures) + if ok then 0 else 1
      ensures AtRest(j, moments, Moment(stable, pending)) == true
      ensures ok ==> Switching(j, moments, Moment(stable, pending), file) == true
    {
      SwitchIsSafe(j, file, moments, HostWrite(file, HEADER_NB, HeaderData(|snapshots|, base)));
      ok := Pwrite(HEADER_NB, HeaderData(|snapshots|, base));
    }

    /** A write whose flush may fail unnoticed. */
    method Switch(base: nat, ghost j: Job) returns (ok: bool, flushed: bool)
      requires JobOk(j) == true && Filling(j, file, Moment(stable, pending), moments) == true
      requires stable == file && pending == [] && j.now == snapshots && j.base == base
      requires TableAt(file, base, snapshots, |snapshots|) == true && base + j.length <= |file|
      modifies `file, `stable, `pending, `moments, `failures
      ensures failures == old(failures) + if ok && flushed then 0 else 1
      ensures AtRest(j, moments, Moment(stable, pending)) == true
      ensures ok ==> Switched(j, flushed, file, Moment(stable, pending)) == true
    {
      flushed := false;
      ok := WriteHeader(base, j);
      if !ok { return; }
      flushed := Flush();
    }

    method Read(offset: nat, n: nat) returns (r: Result<seq<byte>>)
      modifies `failures
      ensures if r.Ok? then r.value == Pread(file, offset, n) && failures == old(failures)
              else r.error == IoError && failures == old(failures) + 1
    {
      var ok: bool := *;
      if !ok {
        failures := failures + 1;
        return Err(IoError);
      }
      r := Ok(Pread(file, offset, n));
    }

    method ReadHeader(offset: nat) returns (f: Result<seq<nat>>)
      modifies `failures
      ensures if f.Ok? then f.value == HeaderAt(file, offset) && failures == old(failures)
              else f.error == IoError && failures == old(failures) + 1
    {
      RecordSizes();
      var h := Read(offset, HEADER_SIZE);
      f := if h.Err? then Err(h.error) else Ok(DecodeRecord(HEADER_WIDTHS, h.value));
    }

    /** Of the extra data only what is known here is read. */
    method ReadExtra(offset: nat, size: nat) returns (x: Result<seq<nat>>)
      modifies `failures
      ensures if x.Ok? then x.value == ExtraAt(file, offset, size) && failures == old(failures)
              else x.error == IoError && failures == old(failures) + 1
    {
      RecordSizes();
      var known := if size < EXTRA_SIZE then size else EXTRA_SIZE;
      var e := Read(offset, known);
      x := if e.Err? then Err(e.error) else Ok(DecodeRecord(EXTRA_WIDTHS, e.value + Zeros(EXTRA_SIZE - known)));
    }

    /** Reads one record in four reads. */
    method ReadRecord(from: nat) returns (one: Result<One>)
      modifies `failures
      ensures if one.Ok? then one.value == ReadOne(file, from, diskSize) && failures == old(failures)
              else one.error == IoError && failures == old(failures) + 1
    {
      var offset := from;
      var h := ReadHeader(offset);
      if h.Err? { return Err(h.error); }
      offset := offset + HEADER_SIZE;
      var f := h.value;
      var vmState, extraSize := f[7], f[8];
      var e := ReadExtra(offset, extraSize);
      if e.Err? { return Err(e.error); }
      offset := offset + extraSize;
      var x := e.value;
      if extraSize >= 8 {
        vmState := x[0];
      }
      var disk := if extraSize >= 16 then x[1] else diskSize;
      var id := Read(offset, f[2]);
      if id.Err? { return Err(id.error); }
      offset := offset + f[2];
      var name := Read(offset, f[3]);
      if name.Err? { return Err(name.error); }
      offset := offset + f[3];
      one := Ok(One(Snapshot(f[0], f[1], id.value, name.value, disk, vmState, f[4], f[5], f[6]), offset));
    }

    /** One more record, or the failure of the whole read. */
    method ReadNext(i: nat, base: nat, list: seq<Snapshot>, offset: nat) returns (next: Result<Listed>)
      requires ReadAll(file, base, i, diskSize) == Ok(Listed(list, offset))
      modifies `failures
      ensures next.Ok? || next.error == TooBig ==> next == ReadAll(file, base, i + 1, diskSize)
      ensures failures == old(failures) + if next.Err? && next.error == IoError then 1 else 0
    {
      var one := ReadRecord(RoundUp(offset, 8));
      if one.Err? { return Err(one.error); }
      if one.value.end - base > MAX_SNAPSHOTS_SIZE { return Err(TooBig); }
      next := Ok(Listed(list + [one.value.snapshot], one.value.end));
    }

    /** Loads the list from the table. It fails if a read does or if the table is too large, and then the list is empty. */
    method ReadSnapshots(nb: nat, base: nat) returns (ok: bool)
      modifies `snapshots, `tableSize, `failures
      ensures ok ==> failures == old(failures)
      ensures ok ==> ReadAll(file, base, nb, diskSize) == Ok(Listed(snapshots, base + tableSize))
      ensures !ok ==> snapshots == [] && tableSize == old(tableSize)
      ensures !ok ==> failures == old(failures) + 1 || ReadAll(file, base, nb, diskSize) == Err(TooBig)
    {
      var list: seq<Snapshot>, offset: nat := [], base;
      for i := 0 to nb
        invariant tableSize == old(tableSize) && failures == old(failures)
        invariant ReadAll(file, base, i, diskSize) == Ok(Listed(list, offset))
      {
        var next := ReadNext(i, base, list, offset);
        if next.Err? {
          ReadFailsAsWhole(file, diskSize, base, i + 1, nb);
          snapshots := [];
          return false;
        }
        list, offset := next.value.list, next.value.end;
      }
      ReadAllEnds(file, diskSize, base, nb);
      snapshots, tableSize, ok := list, offset - base, true;
    }
  }

  lemma ReadFailsAsWhole(file: seq<byte>, diskSize: nat, base: nat, i: nat, n: nat)
    requires i <= n
    ensures ReadAll(file, base, i, diskSize).Err? ==> ReadAll(file, base, n, diskSize) == Err(TooBig)
  {
    if ReadAll(file, base, i, diskSize).Err? {
      WalkFailsOnce(RecordReader(file, diskSize), base, i, n);
    }
  }

  lemma ReadAllEnds(file: seq<byte>, diskSize: nat, base: nat, n: nat)
    requires ReadAll(file, base, n, diskSize).Ok?
    ensures base <= ReadAll(file, base, n, diskSize).value.end
  {
    RecordsEnd(file, diskSize);
    WalkEnds(RecordReader(file, diskSize), base, n);
  }

  /** A walk that fails early fails as a whole, and it fails only for its size. */
  lemma {:induction false} WalkFailsOnce(read: Reader, base: nat, i: nat, n: nat)
    requires i <= n && Walk(read, base, i).Err?
    ensures Walk(read, base, n) == Err(TooBig)
  {
    if i < n {
      WalkFailsOnce(read, base, i, n - 1);
    } else {
      assert n > 0;
      if Walk(read, base, n - 1).Err? {
        WalkFailsOnce(read, base, n - 1, n - 1);
      }
    }
  }

  function FixedPart(sn: Snapshot): seq<byte>
  {
    EncodeRecord(HEADER_WIDTHS, HeaderFields(sn)) + EncodeRecord(EXTRA_WIDTHS, ExtraFields(sn))
  }

  lemma FixedPartLength(sn: Snapshot)
    ensures |FixedPart(sn)| == HEADER_SIZE + EXTRA_SIZE
    ensures Record(sn) == FixedPart(sn) + sn.id + sn.name
  {
    RecordSizes();
  }

  lemma ShapingStarts(file: seq<byte>, base: nat, sns: seq<Snapshot>, k: nat)
    requires k < |sns| && TableAt(file, base, sns, k) && base + EndOf(sns, k) <= |file|
    ensures Shaping(file, base, sns, k, []) == true
  {
  }

  lemma NowIsSafe(j: Job, file: seq<byte>, m: Moment, ms: seq<Moment>)
    requires JobOk(j) && Filling(j, file, m, ms)
    ensures SafeMoment(m, j.diskSize, j.was, j.now) == true && AllSafe(ms, j.diskSize, j.was, j.now) == true
  {
    PreparingIsSafe(j.f0, m, j.old', j.diskSize, j.was, j.now);
  }

  /** Where the record of snapshot `k` lies when the table is written up to `from`. */
  lemma RecordPlace(j: Job, k: nat, from: nat, at: nat)
    requires JobOk(j) == true && k < |j.now| && from == j.base + EndOf(j.now, k) && at == RoundUp(from, 8)
    ensures StartsAt(at, j.base, j.now, k) == true && j.base <= at
    ensures at + RecordLength(j.now[k]) <= j.base + j.length
    ensures at + RecordLength(j.now[k]) == j.base + EndOf(j.now, k + 1)
  {
    assert JobOk(j);
    RecordInsideTable(j.now, j.length, k);
    RoundUpShift(j.base, EndOf(j.now, k));
    EndOfNext(j.now, k);
  }

  lemma RecordInsideTable(sns: seq<Snapshot>, length: nat, k: nat)
    requires k < |sns| && length == EndOf(sns, |sns|)
    ensures RoundUp(EndOf(sns, k), 8) + RecordLength(sns[k]) <= length
  {
    EndsGrow(sns, k, |sns|);
  }
}
