/** The table of snapshots in a qcow2 image: how it is written, read back, and switched over. */
module SnapshotTable {
  import opened Bytes

  const MAX_SNAPSHOTS_SIZE: nat := 1024 * 65536

  /** Where the image header keeps the number of snapshots and, behind it, the table's offset. */
  const HEADER_NB: nat := 60
  const HEADER_OFFSET: nat := 64
  const HEADER_END: nat := 72

  datatype SnapshotOf<S> = Snapshot(l1Offset: nat, l1Size: nat, id: S, name: S, diskSize: nat, vmStateSize: nat,
                                    dateSec: nat, dateNsec: nat, vmClock: nat)

  type Snapshot = SnapshotOf<seq<byte>>

  /** The widths of the C structure's fields, and strings that fit their 16-bit lengths. */
  predicate SnapshotOk(sn: Snapshot)
  {
    && sn.l1Offset < Pow256(8) && sn.l1Size < Pow256(4) && sn.diskSize < Pow256(8) && sn.vmStateSize < Pow256(8)
    && sn.dateSec < Pow256(4) && sn.dateNsec < Pow256(4) && sn.vmClock < Pow256(8)
    && |sn.id| < Pow256(2) && |sn.name| < Pow256(2)
  }

  predicate AllOk(sns: seq<Snapshot>)
  {
    forall i :: 0 <= i < |sns| ==> SnapshotOk(sns[i])
  }

  // ----- one record -----

  const HEADER_WIDTHS: seq<nat> := [8, 4, 2, 2, 4, 4, 8, 4, 4]
  const EXTRA_WIDTHS: seq<nat> := [8, 8]
  const HEADER_SIZE: nat := 40
  const EXTRA_SIZE: nat := 16

  lemma RecordSizes()
    ensures RecordSize(HEADER_WIDTHS) == HEADER_SIZE
    ensures RecordSize(EXTRA_WIDTHS) == EXTRA_SIZE
  {
    assert HEADER_WIDTHS[1..] == [4, 2, 2, 4, 4, 8, 4, 4];
    assert HEADER_WIDTHS[1..][1..] == [2, 2, 4, 4, 8, 4, 4];
    assert RecordSize([8, 4, 4]) == 16 by {
      assert [8, 4, 4][1..] == [4, 4] && [4, 4][1..] == [4] && [4][1..] == [];
    }
    assert RecordSize([4, 4, 8, 4, 4]) == 24 by {
      assert [4, 4, 8, 4, 4][1..] == [4, 8, 4, 4] && [4, 8, 4, 4][1..] == [8, 4, 4];
    }
    assert RecordSize([2, 2, 4, 4, 8, 4, 4]) == 28 by {
      assert [2, 2, 4, 4, 8, 4, 4][1..] == [2, 4, 4, 8, 4, 4] && [2, 4, 4, 8, 4, 4][1..] == [4, 4, 8, 4, 4];
    }
    assert EXTRA_WIDTHS[1..] == [8] && [8][1..] == [];
  }

  /** A state size beyond 32 bits is left to the extra data. */
  function ShortStateSize(n: nat): nat
  {
    if n <= 0xFFFF_FFFF then n else 0
  }

  function HeaderFields(sn: Snapshot): seq<nat>
  {
    [sn.l1Offset, sn.l1Size, |sn.id|, |sn.name|, sn.dateSec, sn.dateNsec, sn.vmClock,
     ShortStateSize(sn.vmStateSize), EXTRA_SIZE]
  }

  function ExtraFields(sn: Snapshot): seq<nat>
  {
    [sn.vmStateSize, sn.diskSize]
  }

  function Record(sn: Snapshot): seq<byte>
  {
    EncodeRecord(HEADER_WIDTHS, HeaderFields(sn)) + EncodeRecord(EXTRA_WIDTHS, ExtraFields(sn)) + sn.id + sn.name
  }

  function RecordLength(sn: Snapshot): nat
  {
    HEADER_SIZE + EXTRA_SIZE + |sn.id| + |sn.name|
  }

  lemma RecordHasLength(sn: Snapshot)
    ensures |Record(sn)| == RecordLength(sn)
  {
    RecordSizes();
  }

  lemma HeaderFits(sn: Snapshot)
    requires SnapshotOk(sn)
    ensures FieldsFit(HEADER_WIDTHS, HeaderFields(sn)) && FieldsFit(EXTRA_WIDTHS, ExtraFields(sn))
  {
    assert Pow256(2) == 0x1_0000 && Pow256(4) == 0x1_0000_0000;
  }

  // ----- reading -----

  datatype Error = IoError | TooBig

  datatype Result<+T> = Ok(value: T) | Err(error: Error)

  /** Bytes of the file, and zeroes beyond its end. */
  function Pread(file: seq<byte>, off: nat, n: nat): (s: seq<byte>)
    ensures |s| == n
    ensures forall k :: 0 <= k < n ==> s[k] == if off + k < |file| then file[off + k] else 0
  {
    seq(n, k requires 0 <= k < n => if off + k < |file| then file[off + k] else 0)
  }

  lemma PreadInside(file: seq<byte>, off: nat, n: nat)
    requires off + n <= |file|
    ensures Pread(file, off, n) == file[off..off + n]
  {
  }

  datatype OneOf<S> = One(snapshot: S, end: nat)

  type One = OneOf<Snapshot>

  function HeaderAt(file: seq<byte>, off: nat): (f: seq<nat>)
    ensures |f| == |HEADER_WIDTHS|
  {
    RecordSizes();
    DecodeRecord(HEADER_WIDTHS, Pread(file, off, HEADER_SIZE))
  }

  /** The extra data may be shorter or longer than the fields known here. */
  function ExtraAt(file: seq<byte>, off: nat, size: nat): (x: seq<nat>)
    ensures |x| == |EXTRA_WIDTHS|
  {
    RecordSizes();
    var known := Min(EXTRA_SIZE, size);
    DecodeRecord(EXTRA_WIDTHS, Pread(file, off, known) + Zeros(EXTRA_SIZE - known))
  }

  /** One record at `off`. */
  function ReadOne(file: seq<byte>, off: nat, diskSize: nat): One
  {
    var f := HeaderAt(file, off);
    var extraSize := f[8];
    var x := ExtraAt(file, off + HEADER_SIZE, extraSize);
    var vmState := if extraSize >= 8 then x[0] else f[7];
    var disk := if extraSize >= 16 then x[1] else diskSize;
    var at := off + HEADER_SIZE + extraSize;
    var id, name := Pread(file, at, f[2]), Pread(file, at + f[2], f[3]);
    One(Snapshot(f[0], f[1], id, name, disk, vmState, f[4], f[5], f[6]), at + f[2] + f[3])
  }

  const HEADER_STARTS: seq<nat> := [0, 8, 12, 14, 16, 20, 24, 32, 36]

  lemma HeaderStart(i: nat)
    requires i < |HEADER_WIDTHS|
    ensures RecordSize(HEADER_WIDTHS[..i]) == HEADER_STARTS[i]
  {
    for k := 0 to i
      invariant RecordSize(HEADER_WIDTHS[..k]) == HEADER_STARTS[k]
    {
      SizeOfMore(HEADER_WIDTHS[..k], HEADER_WIDTHS[k]);
      assert HEADER_WIDTHS[..k + 1] == HEADER_WIDTHS[..k] + [HEADER_WIDTHS[k]];
    }
  }

  lemma HeaderField(h: seq<byte>, i: nat)
    requires |h| == HEADER_SIZE && i < |HEADER_WIDTHS|
    ensures RecordSize(HEADER_WIDTHS) == HEADER_SIZE && HEADER_STARTS[i] + HEADER_WIDTHS[i] <= HEADER_SIZE
    ensures DecodeRecord(HEADER_WIDTHS, h)[i] == FromBE(h[HEADER_STARTS[i]..HEADER_STARTS[i] + HEADER_WIDTHS[i]])
  {
    RecordSizes();
    HeaderStart(i);
    FieldAt(HEADER_WIDTHS, h, i, HEADER_STARTS[i]);
  }

  /** The number in the `n` bytes at `off`. */
  function Number(file: seq<byte>, off: nat, n: nat): nat
  {
    FromBE(Pread(file, off, n))
  }

  lemma NumberIn(file: seq<byte>, off: nat, n: nat, a: nat, m: nat)
    requires a + m <= n
    ensures FromBE(Pread(file, off, n)[a..a + m]) == Number(file, off + a, m)
  {
    assert Pread(file, off, n)[a..a + m] == Pread(file, off + a, m);
  }

  lemma HeaderNumber(file: seq<byte>, off: nat, i: nat)
    requires i < |HEADER_WIDTHS|
    ensures HeaderAt(file, off)[i] == Number(file, off + HEADER_STARTS[i], HEADER_WIDTHS[i])
  {
    HeaderField(Pread(file, off, HEADER_SIZE), i);
    NumberIn(file, off, HEADER_SIZE, HEADER_STARTS[i], HEADER_WIDTHS[i]);
  }

  /** Extra data from its start on: one field if there are 8 bytes, the other if there are 16. */
  lemma ExtraNumbers(file: seq<byte>, at: nat, size: nat)
    ensures size >= 8 ==> ExtraAt(file, at, size)[0] == Number(file, at, 8)
    ensures size >= 16 ==> ExtraAt(file, at, size)[1] == Number(file, at + 8, 8)
  {
    RecordSizes();
    var known := Min(EXTRA_SIZE, size);
    var s := Pread(file, at, known) + Zeros(EXTRA_SIZE - known);
    FieldAt(EXTRA_WIDTHS, s, 0, 0);
    SizeOfMore([], 8);
    assert EXTRA_WIDTHS[..1] == [] + [8];
    FieldAt(EXTRA_WIDTHS, s, 1, 8);
    if size >= 8 {
      assert s[0..8] == Pread(file, at, 8);
    }
    if size >= 16 {
      assert s[8..16] == Pread(file, at + 8, 8);
    }
  }

  /** What the fields of a snapshot are read from, `n` being how many bytes of extra data its header announces. */
  ghost predicate OneAt(file: seq<byte>, off: nat, diskSize: nat, n: nat, one: One)
  {
    var sn := one.snapshot;
    && sn.l1Offset == Number(file, off, 8) && sn.l1Size == Number(file, off + 8, 4)
    && sn.dateSec == Number(file, off + 16, 4) && sn.dateNsec == Number(file, off + 20, 4)
    && sn.vmClock == Number(file, off + 24, 8)
    && sn.vmStateSize == (if n >= 8 then Number(file, off + 40, 8) else Number(file, off + 32, 4))
    && sn.diskSize == (if n >= 16 then Number(file, off + 48, 8) else diskSize)
    && sn.id == Pread(file, off + 40 + n, Number(file, off + 12, 2))
    && sn.name == Pread(file, off + 40 + n + |sn.id|, Number(file, off + 14, 2))
    && one.end == off + 40 + n + |sn.id| + |sn.name|
  }

  /** Where each field of a record is in the file, with extra data shorter or longer than known. */
  lemma RecordBytes(file: seq<byte>, off: nat, diskSize: nat)
    ensures OneAt(file, off, diskSize, Number(file, off + 36, 4), ReadOne(file, off, diskSize)) == true
  {
    NumbersOfHeader(file, off, HeaderAt(file, off));
    ExtraNumbers(file, off + HEADER_SIZE, Number(file, off + 36, 4));
  }

  lemma NumbersOfHeader(file: seq<byte>, off: nat, f: seq<nat>)
    requires f == HeaderAt(file, off)
    ensures f[0] == Number(file, off, 8) && f[1] == Number(file, off + 8, 4) && f[2] == Number(file, off + 12, 2)
    ensures f[3] == Number(file, off + 14, 2) && f[4] == Number(file, off + 16, 4) && f[5] == Number(file, off + 20, 4)
    ensures f[6] == Number(file, off + 24, 8) && f[7] == Number(file, off + 32, 4) && f[8] == Number(file, off + 36, 4)
  {
    FirstNumbers(file, off, f);
    LastNumbers(file, off, f);
  }

  lemma FirstNumbers(file: seq<byte>, off: nat, f: seq<nat>)
    requires f == HeaderAt(file, off)
    ensures f[0] == Number(file, off, 8) && f[1] == Number(file, off + 8, 4) && f[2] == Number(file, off + 12, 2)
    ensures f[3] == Number(file, off + 14, 2)
  {
    HeaderNumber(file, off, 0);
    HeaderNumber(file, off, 1);
    HeaderNumber(file, off, 2);
    HeaderNumber(file, off, 3);
  }

  lemma LastNumbers(file: seq<byte>, off: nat, f: seq<nat>)
    requires f == HeaderAt(file, off)
    ensures f[4] == Number(file, off + 16, 4) && f[5] == Number(file, off + 20, 4) && f[6] == Number(file, off + 24, 8)
    ensures f[7] == Number(file, off + 32, 4) && f[8] == Number(file, off + 36, 4)
  {
    HeaderNumber(file, off, 4);
    HeaderNumber(file, off, 5);
    HeaderNumber(file, off, 6);
    HeaderNumber(file, off, 7);
    HeaderNumber(file, off, 8);
  }

  type Reader = nat -> One

  datatype ListedOf<S> = Listed(list: S, end: nat)

  type Listed = ListedOf<seq<Snapshot>>

  /** `n` records from `base` on, each at a multiple of eight. */
  function Walk(read: Reader, base: nat, n: nat): Result<Listed>
  {
    if n == 0 then Ok(Listed([], base)) else
    var before := Walk(read, base, n - 1);
    if before.Err? then Err(before.error) else
    var one := read(RoundUp(before.value.end, 8));
    if one.end - base > MAX_SNAPSHOTS_SIZE then Err(TooBig)
    else Ok(Listed(before.value.list + [one.snapshot], one.end))
  }

  function RecordReader(file: seq<byte>, diskSize: nat): Reader
  {
    (off: nat) => ReadOne(file, off, diskSize)
  }

  function ReadAll(file: seq<byte>, base: nat, n: nat, diskSize: nat): Result<Listed>
  {
    Walk(RecordReader(file, diskSize), base, n)
  }

  predicate Placed(file: seq<byte>, at: nat, bytes: seq<byte>)
  {
    at + |bytes| <= |file| && file[at..at + |bytes|] == bytes
  }

  lemma RecordPart(file: seq<byte>, off: nat, rec: seq<byte>, a: nat, n: nat)
    requires Placed(file, off, rec) && a + n <= |rec|
    ensures Pread(file, off + a, n) == rec[a..a + n]
  {
    PreadInside(file, off + a, n);
    SliceOfSlice(file, off, |rec|, a, n);
  }

  lemma RecordParts(file: seq<byte>, off: nat, sn: Snapshot)
    requires Placed(file, off, Record(sn))
    ensures |EncodeRecord(HEADER_WIDTHS, HeaderFields(sn))| == HEADER_SIZE
    ensures |EncodeRecord(EXTRA_WIDTHS, ExtraFields(sn))| == EXTRA_SIZE
    ensures Pread(file, off, HEADER_SIZE) == EncodeRecord(HEADER_WIDTHS, HeaderFields(sn))
    ensures Pread(file, off + HEADER_SIZE, EXTRA_SIZE) == EncodeRecord(EXTRA_WIDTHS, ExtraFields(sn))
    ensures Pread(file, off + HEADER_SIZE + EXTRA_SIZE, |sn.id|) == sn.id
    ensures Pread(file, off + HEADER_SIZE + EXTRA_SIZE + |sn.id|, |sn.name|) == sn.name
  {
    RecordSizes();
    var h, e := EncodeRecord(HEADER_WIDTHS, HeaderFields(sn)), EncodeRecord(EXTRA_WIDTHS, ExtraFields(sn));
    FourParts(file, off, Record(sn), h, e, sn.id, sn.name);
  }

  lemma FourParts(file: seq<byte>, off: nat, rec: seq<byte>, h: seq<byte>, e: seq<byte>, id: seq<byte>, name: seq<byte>)
    requires Placed(file, off, rec) && rec == h + e + id + name
    ensures Pread(file, off, |h|) == h && Pread(file, off + |h|, |e|) == e
    ensures Pread(file, off + |h| + |e|, |id|) == id && Pread(file, off + |h| + |e| + |id|, |name|) == name
  {
    RecordPart(file, off, rec, 0, |h|);
    RecordPart(file, off, rec, |h|, |e|);
    RecordPart(file, off, rec, |h| + |e|, |id|);
    RecordPart(file, off, rec, |h| + |e| + |id|, |name|);
  }

  /** A written record is read back as it was, the 64-bit state size included. */
  lemma ReadsOneBack(file: seq<byte>, off: nat, sn: Snapshot, diskSize: nat)
    requires SnapshotOk(sn) && Placed(file, off, Record(sn))
    ensures ReadOne(file, off, diskSize) == One(sn, off + RecordLength(sn))
  {
    RecordSizes();
    RecordParts(file, off, sn);
    HeaderFits(sn);
    FieldsReadBack(HEADER_WIDTHS, HeaderFields(sn));
    FieldsReadBack(EXTRA_WIDTHS, ExtraFields(sn));
    assert Pread(file, off + HEADER_SIZE, EXTRA_SIZE) + Zeros(0) == Pread(file, off + HEADER_SIZE, EXTRA_SIZE);
    ReadOneIs(file, off, diskSize, HeaderFields(sn), ExtraFields(sn));
  }

  lemma FieldsReadBack(widths: seq<nat>, values: seq<nat>)
    requires FieldsFit(widths, values)
    ensures DecodeRecord(widths, EncodeRecord(widths, values)) == values
  {
    RecordRoundTrip(widths, values, []);
    assert EncodeRecord(widths, values) + [] == EncodeRecord(widths, values);
  }

  /** A record with exactly the extra data known here. */
  lemma ReadOneIs(file: seq<byte>, off: nat, diskSize: nat, f: seq<nat>, x: seq<nat>)
    requires f == HeaderAt(file, off) && f[8] == EXTRA_SIZE && x == ExtraAt(file, off + HEADER_SIZE, EXTRA_SIZE)
    ensures var at := off + HEADER_SIZE + EXTRA_SIZE;
            ReadOne(file, off, diskSize) ==
            One(Snapshot(f[0], f[1], Pread(file, at, f[2]), Pread(file, at + f[2], f[3]), x[1], x[0], f[4], f[5], f[6]),
                at + f[2] + f[3])
  {
  }

  // ----- the whole table -----

  /** Where the first `n` records end, counted from the start of the table. */
  function EndOf(sns: seq<Snapshot>, n: nat): nat
    requires n <= |sns|
  {
    if n == 0 then 0 else RoundUp(EndOf(sns, n - 1), 8) + RecordLength(sns[n - 1])
  }

  predicate RecordAt(file: seq<byte>, base: nat, sns: seq<Snapshot>, k: nat)
    requires k < |sns|
  {
    Placed(file, base + RoundUp(EndOf(sns, k), 8), Record(sns[k]))
  }

  predicate TableAt(file: seq<byte>, base: nat, sns: seq<Snapshot>, n: nat)
    requires n <= |sns|
  {
    forall k :: 0 <= k < n ==> RecordAt(file, base, sns, k)
  }

  lemma RoundUpShift(base: nat, n: nat)
    requires base % 8 == 0
    ensures RoundUp(base + n, 8) == base + RoundUp(n, 8)
  {
  }

  lemma {:induction false} EndsGrow(sns: seq<Snapshot>, k: nat, n: nat)
    requires k <= n <= |sns|
    ensures EndOf(sns, k) <= EndOf(sns, n)
    ensures k < n ==> RoundUp(EndOf(sns, k), 8) + RecordLength(sns[k]) <= EndOf(sns, n)
  {
    if k < n {
      EndsGrow(sns, k, n - 1);
    }
  }

  lemma EndOfNext(sns: seq<Snapshot>, k: nat)
    requires k < |sns|
    ensures EndOf(sns, k + 1) == RoundUp(EndOf(sns, k), 8) + RecordLength(sns[k])
  {
  }

  /** The reader finds the record of snapshot `k` where the writer put it. */
  predicate Finds(read: Reader, base: nat, sns: seq<Snapshot>, k: nat)
    requires k < |sns|
  {
    read(RoundUp(base + EndOf(sns, k), 8)) == One(sns[k], base + EndOf(sns, k + 1))
  }

  /** One more record, found and within the size limit. */
  lemma WalkOneMore(read: Reader, base: nat, n: nat, listed: Listed, one: One)
    requires Walk(read, base, n) == Ok(listed) && read(RoundUp(listed.end, 8)) == one
    requires one.end - base <= MAX_SNAPSHOTS_SIZE
    ensures Walk(read, base, n + 1) == Ok(Listed(listed.list + [one.snapshot], one.end))
  {
  }

  predicate AllFound(read: Reader, base: nat, sns: seq<Snapshot>, n: nat)
    requires n <= |sns|
  {
    forall k :: 0 <= k < n ==> Finds(read, base, sns, k)
  }

  lemma {:induction false} WalksBack(read: Reader, base: nat, sns: seq<Snapshot>, n: nat)
    requires n <= |sns| && EndOf(sns, n) <= MAX_SNAPSHOTS_SIZE && AllFound(read, base, sns, n)
    ensures Walk(read, base, n) == Ok(Listed(sns[..n], base + EndOf(sns, n)))
  {
    if n > 0 {
      EndsGrow(sns, n - 1, n);
      WalksBack(read, base, sns, n - 1);
      assert Finds(read, base, sns, n - 1);
      WalkOneMore(read, base, n - 1, Listed(sns[..n - 1], base + EndOf(sns, n - 1)), One(sns[n - 1], base + EndOf(sns, n)));
      assert sns[..n] == sns[..n - 1] + [sns[n - 1]];
    }
  }

  lemma WalksWhole(read: Reader, base: nat, sns: seq<Snapshot>, length: nat)
    requires length == EndOf(sns, |sns|) && length <= MAX_SNAPSHOTS_SIZE && AllFound(read, base, sns, |sns|)
    ensures Walk(read, base, |sns|) == Ok(Listed(sns, base + length))
  {
    WalksBack(read, base, sns, |sns|);
    assert sns[..|sns|] == sns;
  }

  ghost predicate ReadsFrom(read: Reader, file: seq<byte>, diskSize: nat)
  {
    forall off: nat {:trigger ReadOne(file, off, diskSize)} :: read(off) == ReadOne(file, off, diskSize)
  }

  lemma FindsRecord(file: seq<byte>, base: nat, sns: seq<Snapshot>, n: nat, k: nat, diskSize: nat, read: Reader)
    requires k < n <= |sns| && AllOk(sns) == true && base % 8 == 0 && TableAt(file, base, sns, n) == true
    requires ReadsFrom(read, file, diskSize) == true
    ensures Finds(read, base, sns, k) == true
  {
    var from, to := EndOf(sns, k), EndOf(sns, k + 1);
    var at := base + RoundUp(from, 8);
    RoundUpShift(base, from);
    EndOfNext(sns, k);
    FoundAt(file, base, sns, n, k, at, diskSize, read, base + to);
    FindsAt(read, base, sns, k, base + from, at, base + to);
  }

  lemma FoundAt(file: seq<byte>, base: nat, sns: seq<Snapshot>, n: nat, k: nat, at: nat, diskSize: nat, read: Reader, end: nat)
    requires k < n <= |sns| && AllOk(sns) == true && TableAt(file, base, sns, n) == true
    requires ReadsFrom(read, file, diskSize) == true
    requires at == base + RoundUp(EndOf(sns, k), 8) && end == at + RecordLength(sns[k])
    ensures read(at) == One(sns[k], end)
  {
    assert RecordAt(file, base, sns, k);
    ReadsOneBack(file, at, sns[k], diskSize);
  }

  lemma FindsAt(read: Reader, base: nat, sns: seq<Snapshot>, k: nat, from: nat, at: nat, end: nat)
    requires k < |sns| && from == base + EndOf(sns, k) && at == RoundUp(from, 8) && end == base + EndOf(sns, k + 1)
    requires read(at) == One(sns[k], end)
    ensures Finds(read, base, sns, k) == true
  {
  }

  lemma TableIsFound(file: seq<byte>, base: nat, sns: seq<Snapshot>, n: nat, diskSize: nat, read: Reader)
    requires n <= |sns| && AllOk(sns) == true && base % 8 == 0 && TableAt(file, base, sns, n) == true
    requires ReadsFrom(read, file, diskSize) == true
    ensures AllFound(read, base, sns, n) == true
  {
    forall k | 0 <= k < n
      ensures Finds(read, base, sns, k)
    {
      FindsRecord(file, base, sns, n, k, diskSize, read);
    }
  }

  /** Reading a written table gives the list it was written from, and ends where the writer ended. */
  lemma ReadsAllBack(file: seq<byte>, base: nat, sns: seq<Snapshot>, length: nat, diskSize: nat)
    requires AllOk(sns) && base % 8 == 0 && TableAt(file, base, sns, |sns|)
    requires length == EndOf(sns, |sns|) && length <= MAX_SNAPSHOTS_SIZE
    ensures ReadAll(file, base, |sns|, diskSize) == Ok(Listed(sns, base + length))
  {
    TableIsFound(file, base, sns, |sns|, diskSize, RecordReader(file, diskSize));
    WalksWhole(RecordReader(file, diskSize), base, sns, length);
  }

  /** A record never ends before it starts. */
  ghost predicate Ends(read: Reader)
  {
    forall off: nat :: off <= read(off).end
  }

  /** The second reader finds what the first finds between `base` and `end`. */
  ghost predicate Agrees(read: Reader, read': Reader, base: nat, end: nat)
  {
    forall off: nat :: base <= off && read(off).end <= end ==> read'(off) == read(off)
  }

  lemma {:induction false} WalkEnds(read: Reader, base: nat, n: nat)
    requires Walk(read, base, n).Ok? && Ends(read)
    ensures base <= Walk(read, base, n).value.end
    ensures n > 0 ==>
              && Walk(read, base, n - 1).Ok?
              && var off := RoundUp(Walk(read, base, n - 1).value.end, 8);
              off <= read(off).end == Walk(read, base, n).value.end
  {
    if n > 0 {
      WalkEnds(read, base, n - 1);
    }
  }

  lemma {:induction false} WalkAgrees(read: Reader, read': Reader, base: nat, n: nat, end: nat)
    requires Walk(read, base, n).Ok? && Walk(read, base, n).value.end <= end
    requires Ends(read) && Agrees(read, read', base, end)
    ensures Walk(read', base, n) == Walk(read, base, n)
  {
    if n > 0 {
      WalkEnds(read, base, n);
      WalkEnds(read, base, n - 1);
      WalkAgrees(read, read', base, n - 1, end);
    }
  }

  lemma ReadOneEnds(file: seq<byte>, off: nat, diskSize: nat)
    ensures off <= ReadOne(file, off, diskSize).end
  {
  }

  lemma RecordsEnd(file: seq<byte>, diskSize: nat)
    ensures Ends(RecordReader(file, diskSize)) == true
  {
    forall off: nat
      ensures off <= RecordReader(file, diskSize)(off).end
    {
      ReadOneEnds(file, off, diskSize);
    }
  }

  lemma RecordsAgree(file: seq<byte>, file': seq<byte>, base: nat, end: nat, diskSize: nat)
    requires base <= end <= |file| && end <= |file'| && file'[base..end] == file[base..end]
    ensures Agrees(RecordReader(file, diskSize), RecordReader(file', diskSize), base, end) == true
  {
    var read, read' := RecordReader(file, diskSize), RecordReader(file', diskSize);
    forall off: nat | base <= off && read(off).end <= end
      ensures read'(off) == read(off)
    {
      ReadOneEnds(file, off, diskSize);
      OneStaysInside(file, file', off, diskSize, base, end);
    }
  }

  /** A read looks at nothing outside the table. */
  lemma ReadStaysInside(file: seq<byte>, file': seq<byte>, base: nat, n: nat, diskSize: nat)
    requires ReadAll(file, base, n, diskSize).Ok?
    requires var end := ReadAll(file, base, n, diskSize).value.end;
             base <= end ==> end <= |file| && end <= |file'| && file'[base..end] == file[base..end]
    ensures ReadAll(file', base, n, diskSize) == ReadAll(file, base, n, diskSize)
  {
    RecordsEnd(file, diskSize);
    StaysInside(file, file', base, n, diskSize, RecordReader(file, diskSize), RecordReader(file', diskSize));
  }

  lemma StaysInside(file: seq<byte>, file': seq<byte>, base: nat, n: nat, diskSize: nat, read: Reader, read': Reader)
    requires read == RecordReader(file, diskSize) && read' == RecordReader(file', diskSize)
    requires Walk(read, base, n).Ok? && Ends(read)
    requires var end := Walk(read, base, n).value.end;
             base <= end ==> end <= |file| && end <= |file'| && file'[base..end] == file[base..end]
    ensures Walk(read', base, n) == Walk(read, base, n)
  {
    WalkEnds(read, base, n);
    var end := Walk(read, base, n).value.end;
    RecordsAgree(file, file', base, end, diskSize);
    WalkAgrees(read, read', base, n, end);
  }

  /** What one record is read from lies between its start and its end. */
  lemma OneStaysInside(file: seq<byte>, file': seq<byte>, off: nat, diskSize: nat, base: nat, end: nat)
    requires base <= off && end <= |file| && end <= |file'| && base <= end && file[base..end] == file'[base..end]
    requires ReadOne(file, off, diskSize).end <= end
    ensures ReadOne(file', off, diskSize) == ReadOne(file, off, diskSize)
  {
    forall a: nat, n: nat | base <= a && a + n <= end
      ensures Pread(file', a, n) == Pread(file, a, n)
    {
      PreadInside(file, a, n);
      PreadInside(file', a, n);
      SliceOfSlice(file, base, end - base, a - base, n);
      SliceOfSlice(file', base, end - base, a - base, n);
    }
  }
}
