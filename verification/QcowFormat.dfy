/** The qcow header: creating an image, opening one, and what a new image reads as. */
module QcowFormat {
  import opened Bytes
  import opened QcowLayout
  import opened QcowState
  import opened QcowImage

  const QCOW_MAGIC := 0x514649fb
  const QCOW_VERSION := 1
  const MAX_L1_ENTRIES := 0x7fff_ffff / 8
  const MAX_BACKING_NAME := 1023

  datatype Header = Header(
    magic: nat, version: nat, backingOffset: nat, backingSize: nat, mtime: nat, size: nat,
    clusterBits: nat, l2Bits: nat, cryptMethod: nat, l1Offset: nat)

  /** Field widths of the packed header, in file order; the ninth field is padding. */
  const HEADER_WIDTHS: seq<nat> := [4, 4, 8, 4, 4, 8, 1, 1, 2, 4, 8]

  lemma HeaderWidths()
    ensures RecordSize(HEADER_WIDTHS) == HEADER_SIZE
  {
    var sizes := [48, 44, 40, 32, 28, 24, 16, 15, 14, 12, 8, 0];
    for k := |HEADER_WIDTHS| downto 0
      invariant RecordSize(HEADER_WIDTHS[k..]) == sizes[k]
    {
      assert HEADER_WIDTHS[k..][1..] == HEADER_WIDTHS[k + 1..];
    }
    assert HEADER_WIDTHS[0..] == HEADER_WIDTHS;
  }

  function HeaderValues(h: Header): seq<nat>
  {
    [h.magic, h.version, h.backingOffset, h.backingSize, h.mtime, h.size, h.clusterBits, h.l2Bits, 0, h.cryptMethod, h.l1Offset]
  }

  function EncodeHeader(h: Header): (s: seq<byte>)
    ensures |s| == HEADER_SIZE
  {
    HeaderWidths();
    EncodeRecord(HEADER_WIDTHS, HeaderValues(h))
  }

  function DecodeHeader(f: seq<byte>): Header
    requires HEADER_SIZE <= |f|
  {
    HeaderWidths();
    var v := DecodeRecord(HEADER_WIDTHS, f);
    Header(v[0], v[1], v[2], v[3], v[4], v[5], v[6], v[7], v[9], v[10])
  }

  lemma HeaderRoundTrip(f: seq<byte>, h: Header)
    requires HEADER_SIZE <= |f| && f[..HEADER_SIZE] == EncodeHeader(h) && FieldsFit(HEADER_WIDTHS, HeaderValues(h))
    ensures DecodeHeader(f) == h
  {
    var record := EncodeRecord(HEADER_WIDTHS, HeaderValues(h));
    assert f == record + f[HEADER_SIZE..];
    RecordRoundTrip(HEADER_WIDTHS, HeaderValues(h), f[HEADER_SIZE..]);
    var v := DecodeRecord(HEADER_WIDTHS, f);
    assert v == HeaderValues(h);
    HeaderFromValues(h);
  }

  lemma HeaderFromValues(h: Header)
    ensures var v := HeaderValues(h);
            Header(v[0], v[1], v[2], v[3], v[4], v[5], v[6], v[7], v[9], v[10]) == h
  {
  }

  const HEADER_STARTS: seq<nat> := [0, 4, 8, 16, 20, 24, 32, 33, 34, 36, 40]

  lemma HeaderStart(i: nat)
    requires i < |HEADER_WIDTHS|
    ensures RecordSize(HEADER_WIDTHS[..i]) == HEADER_STARTS[i]
  {
    for k := 0 to i
      invariant RecordSize(HEADER_WIDTHS[..k]) == HEADER_STARTS[k]
    {
      SizeOfMore(HEADER_WIDTHS[..k], HEADER_WIDTHS[k]);
      assert HEADER_WIDTHS[..k + 1] == HEADER_WIDTHS[..k] + [HEADER_WIDTHS[k]];
    }
  }

  lemma HeaderField(f: seq<byte>, i: nat)
    requires HEADER_SIZE <= |f| && i < |HEADER_WIDTHS|
    ensures RecordSize(HEADER_WIDTHS) == HEADER_SIZE && HEADER_STARTS[i] + HEADER_WIDTHS[i] <= HEADER_SIZE
    ensures DecodeRecord(HEADER_WIDTHS, f)[i] == FromBE(f[HEADER_STARTS[i]..HEADER_STARTS[i] + HEADER_WIDTHS[i]])
  {
    HeaderWidths();
    HeaderStart(i);
    FieldAt(HEADER_WIDTHS, f, i, HEADER_STARTS[i]);
  }

  /** Where the fields of the header are in the file. */
  lemma HeaderBytes(f: seq<byte>)
    requires HEADER_SIZE <= |f|
    ensures var h := DecodeHeader(f);
            && h.magic == FromBE(f[0..4]) && h.version == FromBE(f[4..8]) && h.backingOffset == Word(f, 8)
            && h.backingSize == FromBE(f[16..20]) && h.mtime == FromBE(f[20..24]) && h.size == Word(f, 24)
            && h.clusterBits == f[32] && h.l2Bits == f[33] && h.cryptMethod == FromBE(f[36..40]) && h.l1Offset == Word(f, 40)
  {
    HeaderNumbers(f);
    HeaderSmallFields(f);
  }

  lemma HeaderNumbers(f: seq<byte>)
    requires HEADER_SIZE <= |f|
    ensures var h := DecodeHeader(f);
            && h.magic == FromBE(f[0..4]) && h.version == FromBE(f[4..8]) && h.backingOffset == Word(f, 8)
            && h.backingSize == FromBE(f[16..20]) && h.mtime == FromBE(f[20..24])
  {
    HeaderField(f, 0);
    HeaderField(f, 1);
    HeaderField(f, 2);
    HeaderField(f, 3);
    HeaderField(f, 4);
  }

  lemma HeaderSmallFields(f: seq<byte>)
    requires HEADER_SIZE <= |f|
    ensures var h := DecodeHeader(f);
            && h.size == Word(f, 24) && h.clusterBits == f[32] && h.l2Bits == f[33]
            && h.cryptMethod == FromBE(f[36..40]) && h.l1Offset == Word(f, 40)
  {
    HeaderField(f, 5);
    HeaderField(f, 6);
    HeaderField(f, 7);
    HeaderField(f, 9);
    HeaderField(f, 10);
    OneByte(f, 32);
    OneByte(f, 33);
  }

  datatype OpenError = NotQcow | BadVersion | TooSmall | BadClusterBits | BadL2Bits | BadCrypt | TooLarge | NameTooLong

  datatype Opened = Opened(g: Geometry) | Refused(error: OpenError)

  function L1Entries(size: nat, clusterBits: nat, l2Bits: nat): nat
  {
    RoundUp(size, Pow2(clusterBits + l2Bits)) / Pow2(clusterBits + l2Bits)
  }

  /** The checks of opening, in order, and the geometry they lead to. */
  function OpenHeader(h: Header): Opened
  {
    if h.magic != QCOW_MAGIC then Refused(NotQcow)
    else if h.version != QCOW_VERSION then Refused(BadVersion)
    else if h.size <= 1 then Refused(TooSmall)
    else if h.clusterBits < 9 || h.clusterBits > 16 then Refused(BadClusterBits)
    else if h.l2Bits < 6 || h.l2Bits > 13 then Refused(BadL2Bits)
    else if h.cryptMethod > 1 then Refused(BadCrypt)
    else if h.size > TWO64 - 1 - Pow2(h.clusterBits + h.l2Bits) then Refused(TooLarge)
    else if L1Entries(h.size, h.clusterBits, h.l2Bits) > MAX_L1_ENTRIES then Refused(TooLarge)
    else if h.backingOffset != 0 && h.backingSize > MAX_BACKING_NAME then Refused(NameTooLong)
    else Opened(Geometry(h.clusterBits, Pow2(h.clusterBits - 9), h.l2Bits, Pow2(h.l2Bits), Pow2(63 - h.clusterBits),
                         h.l1Offset, L1Entries(h.size, h.clusterBits, h.l2Bits), h.size / SECTOR))
  }

  /** Which headers opening accepts. */
  lemma OpenedIff(h: Header)
    ensures OpenHeader(h).Opened? <==>
              && h.magic == QCOW_MAGIC && h.version == QCOW_VERSION && h.cryptMethod <= 1
              && 1 < h.size && 9 <= h.clusterBits <= 16 && 6 <= h.l2Bits <= 13
              && h.size <= MAX_L1_ENTRIES * Pow2(h.clusterBits + h.l2Bits)
              && h.size + Pow2(h.clusterBits + h.l2Bits) < TWO64
              && (h.backingOffset == 0 || h.backingSize <= MAX_BACKING_NAME)
  {
    TablesNeeded(h.size, Pow2(h.clusterBits + h.l2Bits), MAX_L1_ENTRIES);
  }

  lemma TablesNeeded(size: nat, unit: nat, limit: nat)
    requires unit > 0
    ensures RoundUp(size, unit) / unit <= limit <==> size <= limit * unit
  {
    var n := RoundUp(size, unit) / unit;
    QuotientRemainder(RoundUp(size, unit), unit);
    if n <= limit {
      MulMonotone(n, limit, unit);
    } else {
      MulMonotone(limit + 1, n, unit);
      Distribute(limit, 1, unit);
    }
  }

  /**
   * The tables of an accepted header cover its disk. What opening does not check is where the
   * level 1 table lies: that decides whether the driver's arithmetic holds for the image.
   */
  lemma OpenedGeometryIff(h: Header)
    requires OpenHeader(h).Opened?
    ensures var g := OpenHeader(h).g;
            && g.totalSectors == h.size / SECTOR
            && g.totalSectors <= g.l1Size * (g.l2Size * g.clusterSectors)
            && (g.Valid() <==> HEADER_SIZE <= h.l1Offset && h.l1Offset + 8 * g.l1Size < TWO63)
  {
    L1EntriesCover(h.size, h.clusterBits, h.l2Bits);
    OpenHeader(h).g.CoversIff();
  }

  /** How many bytes of the disk one level 1 entry is for. */
  function TableReach(f: seq<byte>): nat
    requires HEADER_SIZE <= |f|
  {
    var clusterBits: int, l2Bits: int := f[32], f[33];
    Pow2(clusterBits + l2Bits)
  }

  /** The bytes of a header that opening accepts: the letters QFI and 0xfb, version 1, and sizes within limits. */
  ghost predicate Acceptable(f: seq<byte>)
    requires HEADER_SIZE <= |f|
  {
    && f[0..4] == [0x51, 0x46, 0x49, 0xfb] && f[4..8] == [0, 0, 0, 1] && (f[36..40] == [0, 0, 0, 0] || f[36..40] == [0, 0, 0, 1])
    && 9 <= f[32] <= 16 && 6 <= f[33] <= 13 && 1 < Word(f, 24)
    && Word(f, 24) <= MAX_L1_ENTRIES * TableReach(f) && Word(f, 24) + TableReach(f) < TWO64
    && (Word(f, 8) == 0 || FromBE(f[16..20]) <= MAX_BACKING_NAME)
  }

  /** The geometry is the one that the bytes of the header give. */
  ghost predicate OpenedAs(f: seq<byte>, g: Geometry)
    requires HEADER_SIZE <= |f|
  {
    && g.clusterBits == f[32] && 9 <= f[32] <= 63 && g.clusterSectors == Pow2(f[32] - 9) && g.offsetLimit == Pow2(63 - f[32])
    && g.l2Bits == f[33] && g.l2Size == Pow2(f[33])
    && g.l1Offset == Word(f, 40) && g.totalSectors == Word(f, 24) / SECTOR
    && forall k: nat :: EnoughTables(f, k) <==> g.l1Size <= k
  }

  /** `k` level 1 entries are enough for the size of the disk. */
  predicate EnoughTables(f: seq<byte>, k: nat)
    requires HEADER_SIZE <= |f|
  {
    Word(f, 24) <= k * TableReach(f)
  }

  /** Which files are accepted, and what is made of their bytes. */
  lemma OpenedByBytes(f: seq<byte>)
    requires HEADER_SIZE <= |f|
    ensures OpenHeader(DecodeHeader(f)).Opened? <==> Acceptable(f)
    ensures OpenHeader(DecodeHeader(f)).Opened? ==> OpenedAs(f, OpenHeader(DecodeHeader(f)).g) == true
  {
    var h := DecodeHeader(f);
    HeaderBytes(f);
    OpenedIff(h);
    FourBytes(f[0..4], QCOW_MAGIC, 0x51, 0x46, 0x49, 0xfb);
    FourBytes(f[4..8], QCOW_VERSION, 0, 0, 0, 1);
    FourBytes(f[36..40], 0, 0, 0, 0, 0);
    FourBytes(f[36..40], 1, 0, 0, 0, 1);
    if OpenHeader(h).Opened? {
      SizesOfHeader(f, h);
    }
  }

  lemma SizesOfHeader(f: seq<byte>, h: Header)
    requires HEADER_SIZE <= |f| && OpenHeader(h).Opened?
    requires h.size == Word(f, 24) && h.clusterBits == f[32] && h.l2Bits == f[33] && h.l1Offset == Word(f, 40)
    ensures OpenedAs(f, OpenHeader(h).g) == true
  {
    forall k: nat
      ensures EnoughTables(f, k) <==> OpenHeader(h).g.l1Size <= k
    {
      TablesNeeded(h.size, Pow2(h.clusterBits + h.l2Bits), k);
    }
  }

  /** A file of 48 bytes at least is read as it is. */
  lemma HeaderInFile(f: seq<byte>, rest: seq<byte>)
    requires HEADER_SIZE <= |f|
    ensures DecodeHeader(f + rest) == DecodeHeader(f)
  {
    HeaderBytes(f);
    HeaderBytes(f + rest);
    var g := f + rest;
    assert g[0..4] == f[0..4] && g[4..8] == f[4..8] && g[8..16] == f[8..16] && g[16..20] == f[16..20] && g[20..24] == f[20..24];
    assert g[24..32] == f[24..32] && g[36..40] == f[36..40] && g[40..48] == f[40..48];
  }

  /** A header with a level 1 table in its own place is accepted. */
  lemma TableInHeaderAccepted()
    ensures var h := Header(QCOW_MAGIC, QCOW_VERSION, 0, 0, 0, SECTOR, 12, 9, 0, 0);
            OpenHeader(h).Opened? && !OpenHeader(h).g.Valid()
  {
    var h := Header(QCOW_MAGIC, QCOW_VERSION, 0, 0, 0, SECTOR, 12, 9, 0, 0);
    Pow2Add(12, 9);
    assert Pow2(12) == 4096 && Pow2(9) == 512;
    OpenedIff(h);
    OpenedGeometryIff(h);
  }

  /** The header `qcow_create` writes; `name` is the backing file name, empty for none. */
  function NewHeader(size: nat, name: seq<byte>, encrypt: bool): Header
  {
    var backed := |name| > 0;
    Header(QCOW_MAGIC, QCOW_VERSION, if backed then HEADER_SIZE else 0, |name|, 0, RoundUp(size, SECTOR),
           if backed then 9 else 12, if backed then 12 else 9, if encrypt then 1 else 0,
           RoundUp(HEADER_SIZE + |name|, 8))
  }

  /** The state of a new file while its level 1 table is being written, `done` bytes of it so far. */
  ghost predicate Prepared(f: seq<byte>, h: Header, name: seq<byte>, done: nat)
  {
    && |f| % SECTOR == 0 && h.l1Offset + done <= |f|
    && HEADER_SIZE <= |f| && f[..HEADER_SIZE] == EncodeHeader(h)
    && HEADER_SIZE + |name| <= |f| && f[HEADER_SIZE..HEADER_SIZE + |name|] == name
    && forall k :: h.l1Offset <= k < |f| ==> f[k] == 0
  }

  lemma HeaderWritten(h: Header)
    requires HEADER_SIZE <= h.l1Offset <= SECTOR
    ensures Prepared(HostWrite([], 0, EncodeHeader(h)), h, [], 0)
  {
    var f := HostWrite([], 0, EncodeHeader(h));
    HostWriteData([], 0, EncodeHeader(h));
    HostWriteLength([], 0, EncodeHeader(h));
    assert f[..HEADER_SIZE] == f[0..HEADER_SIZE];
  }

  lemma RoundedLengths(n: nat)
    ensures RoundUp(n, 8) <= RoundUp(Max(SECTOR, n), SECTOR)
  {
    var a, b := (n + 7) / 8, (Max(SECTOR, n) + 511) / 512;
    assert RoundUp(n, 8) == a * 8 && RoundUp(Max(SECTOR, n), SECTOR) == b * 512;
    assert a * 8 < n + 8 && n <= b * 512;
    assert a <= b * 64;
  }

  lemma NameWritten(f: seq<byte>, h: Header, name: seq<byte>)
    requires f == HostWrite([], 0, EncodeHeader(h)) && h.l1Offset == RoundUp(HEADER_SIZE + |name|, 8)
    ensures Prepared(HostWrite(f, HEADER_SIZE, name), h, name, 0)
  {
    var f' := HostWrite(f, HEADER_SIZE, name);
    HostWriteData([], 0, EncodeHeader(h));
    HostWriteData(f, HEADER_SIZE, name);
    HostWriteLength(f, HEADER_SIZE, name);
    HostWriteFrame(f, HEADER_SIZE, name, 0, HEADER_SIZE);
    RoundedLengths(HEADER_SIZE + |name|);
    assert f[..HEADER_SIZE] == f[0..HEADER_SIZE] && f'[..HEADER_SIZE] == f'[0..HEADER_SIZE];
    NameTail(f, h, name);
  }

  lemma NameTail(f: seq<byte>, h: Header, name: seq<byte>)
    requires f == HostWrite([], 0, EncodeHeader(h))
    ensures forall k :: HEADER_SIZE + |name| <= k < |HostWrite(f, HEADER_SIZE, name)| ==>
              HostWrite(f, HEADER_SIZE, name)[k] == 0
  {
    assert forall k :: HEADER_SIZE <= k < |f| ==> f[k] == 0;
  }

  lemma TableSectorWritten(f: seq<byte>, h: Header, name: seq<byte>, done: nat)
    requires Prepared(f, h, name, done) == true && HEADER_SIZE + |name| <= h.l1Offset
    ensures Prepared(HostWrite(f, h.l1Offset + done, Zeros(SECTOR)), h, name, done + SECTOR) == true
  {
    assert Prepared(f, h, name, done);
    BytesBefore(f, h.l1Offset + done, HEADER_SIZE, |name|);
    ZeroesFrom(f, h.l1Offset, done);
  }

  /** A sector of zeroes written behind the first `n + k` bytes keeps them. */
  lemma BytesBefore(f: seq<byte>, at: nat, n: nat, k: nat)
    requires |f| % SECTOR == 0 && n + k <= at && n + k <= |f|
    ensures var f' := HostWrite(f, at, Zeros(SECTOR));
            n + k <= |f'| && |f'| % SECTOR == 0 && f'[..n] == f[..n] && f'[n..n + k] == f[n..n + k]
  {
    var f' := HostWrite(f, at, Zeros(SECTOR));
    HostWriteLength(f, at, Zeros(SECTOR));
    HostWriteFrame(f, at, Zeros(SECTOR), n, k);
    assert forall i :: 0 <= i < n ==> f'[i] == f[i];
  }

  lemma ZeroesFrom(f: seq<byte>, start: nat, done: nat)
    requires |f| % SECTOR == 0 && start + done <= |f| && forall k :: start <= k < |f| ==> f[k] == 0
    ensures var f' := HostWrite(f, start + done, Zeros(SECTOR));
            start + done + SECTOR <= |f'| && forall k :: start <= k < |f'| ==> f'[k] == 0
  {
  }

  /** Writes the header, the backing file name and a zeroed level 1 table, sector by sector. */
  method Create(size: nat, name: seq<byte>, encrypt: bool) returns (f: seq<byte>)
    ensures var h := NewHeader(size, name, encrypt);
            Prepared(f, h, name, 8 * L1Entries(h.size, h.clusterBits, h.l2Bits))
    ensures |name| <= MAX_BACKING_NAME && RoundUp(size, SECTOR) < TWO64 ==> Created(f, size, name, encrypt) == true
  {
    var h := NewHeader(size, name, encrypt);
    f := HostWrite([], 0, EncodeHeader(h));
    if |name| > 0 {
      NameWritten(f, h, name);
      f := HostWrite(f, HEADER_SIZE, name);
    } else {
      HeaderWritten(h);
    }
    f := WriteZeroTable(f, h, name, L1Entries(h.size, h.clusterBits, h.l2Bits));
    if |name| <= MAX_BACKING_NAME && RoundUp(size, SECTOR) < TWO64 {
      CreatedBytes(f, size, name, encrypt, 8 * L1Entries(h.size, h.clusterBits, h.l2Bits));
    }
  }

  /**
   * The bytes of a new file. With a backing file clusters are of one sector, so that no sector that is
   * not written has to be copied up.
   */
  ghost predicate Created(f: seq<byte>, size: nat, name: seq<byte>, encrypt: bool)
  {
    && HEADER_SIZE + |name| <= |f|
    && f[0..4] == [0x51, 0x46, 0x49, 0xfb] && f[4..8] == [0, 0, 0, 1]
    && Word(f, 8) == (if name == [] then 0 else 48) && FromBE(f[16..20]) == |name| && f[48..48 + |name|] == name
    && Word(f, 24) == RoundUp(size, SECTOR) && FromBE(f[36..40]) == (if encrypt then 1 else 0)
    && f[32] == (if name == [] then 12 else 9) && f[33] == (if name == [] then 9 else 12)
    && 48 + |name| <= Word(f, 40) < 56 + |name| && Word(f, 40) % 8 == 0
    && forall k :: Word(f, 40) <= k < |f| ==> f[k] == 0
  }

  lemma CreatedBytes(f: seq<byte>, size: nat, name: seq<byte>, encrypt: bool, done: nat)
    requires |name| <= MAX_BACKING_NAME && RoundUp(size, SECTOR) < TWO64
    requires Prepared(f, NewHeader(size, name, encrypt), name, done) == true
    ensures Created(f, size, name, encrypt) == true
  {
    var h := NewHeader(size, name, encrypt);
    NewHeaderFits(size, name, encrypt);
    assert Prepared(f, h, name, done);
    HeaderRoundTrip(f, h);
    HeaderBytes(f);
    FourBytes(f[0..4], QCOW_MAGIC, 0x51, 0x46, 0x49, 0xfb);
    FourBytes(f[4..8], QCOW_VERSION, 0, 0, 0, 1);
  }

  /** Writes the `l1Size` empty level 1 entries, in whole sectors. */
  method WriteZeroTable(f0: seq<byte>, h: Header, ghost name: seq<byte>, l1Size: nat) returns (f: seq<byte>)
    requires Prepared(f0, h, name, 0) == true && HEADER_SIZE + |name| <= h.l1Offset
    ensures Prepared(f, h, name, 8 * l1Size) == true
  {
    f := f0;
    var sectors := (8 * l1Size + SECTOR - 1) / SECTOR;
    var i := 0;
    while i < sectors
      invariant 0 <= i <= sectors
      invariant Prepared(f, h, name, SECTOR * i) == true
    {
      TableSectorWritten(f, h, name, SECTOR * i);
      f := HostWrite(f, h.l1Offset + SECTOR * i, Zeros(SECTOR));
      i := i + 1;
    }
    assert 8 * l1Size <= SECTOR * sectors;
    PreparedUpTo(f, h, name, SECTOR * sectors, 8 * l1Size);
  }

  lemma PreparedUpTo(f: seq<byte>, h: Header, name: seq<byte>, done: nat, n: nat)
    requires Prepared(f, h, name, done) == true && n <= done
    ensures Prepared(f, h, name, n) == true
  {
  }

  /** Opens an image file: checks the header, reads the level 1 table, starts with empty caches. */
  method Open(env: Env, f: seq<byte>, ghost clusters: seq<seq<Entry>>) returns (r: Opened, q: Qcow?)
    ensures r == OpenHeader(DecodeHeader(f + Zeros(HEADER_SIZE)))
    ensures HEADER_SIZE <= |f| ==> (r.Opened? <==> Acceptable(f)) && (r.Opened? ==> OpenedAs(f, r.g) == true)
    ensures r.Refused? <==> q == null
    ensures r.Opened? ==>
              && (r.g.Valid() <==> HEADER_SIZE <= r.g.l1Offset && r.g.MetaEnd() < TWO63)
              && q.env == env && q.g == r.g && q.l1 == ReadWords(f, r.g.l1Offset, r.g.l1Size)
              && q.Img() == Image(f, q.l1, clusters)
              && (WellFormed(env, r.g, q.Img()) ==> q.Valid())
  {
    r := OpenHeader(DecodeHeader(f + Zeros(HEADER_SIZE)));
    if HEADER_SIZE <= |f| {
      HeaderInFile(f, Zeros(HEADER_SIZE));
      OpenedByBytes(f);
    }
    if r.Refused? {
      return r, null;
    }
    OpenedGeometryIff(DecodeHeader(f + Zeros(HEADER_SIZE)));
    q := new Qcow(env, r.g, f, clusters);
  }

  /** The cluster map of an image with no table allocated. */
  function NoClusters(g: Geometry): seq<seq<Entry>>
  {
    seq(g.l1Size, _ => seq(g.l2Size, _ => Free))
  }

  function NewImage(g: Geometry, f: seq<byte>): Image
  {
    Image(f, Zeros(g.l1Size), NoClusters(g))
  }

  lemma L1EntriesCover(size: nat, clusterBits: nat, l2Bits: nat)
    requires 9 <= clusterBits
    ensures size / SECTOR <= L1Entries(size, clusterBits, l2Bits) * (Pow2(l2Bits) * Pow2(clusterBits - 9))
  {
    var unit, n := Pow2(clusterBits + l2Bits), L1Entries(size, clusterBits, l2Bits);
    var part := Pow2(l2Bits) * Pow2(clusterBits - 9);
    assert Pow2(9) == SECTOR;
    Pow2Add(l2Bits, clusterBits - 9);
    Pow2Add(l2Bits + (clusterBits - 9), 9);
    assert unit == part * SECTOR;
    QuotientRemainder(RoundUp(size, unit), unit);
    assert size <= n * unit;
    MulSwap(n, SECTOR, part);
    assert n * (SECTOR * part) == SECTOR * (n * part);
  }

  /**
   * A new image opens when its size needs no more level 1 entries than an image may have, is then
   * well formed with every cluster unallocated, and so reads as its backing image.
   */
  lemma NewImageReadsAsBacking(size: nat, name: seq<byte>, encrypt: bool, f: seq<byte>, env: Env)
    requires env.Laws() && |name| <= MAX_BACKING_NAME && 0 < size
    requires var h := NewHeader(size, name, encrypt);
             && L1Entries(h.size, h.clusterBits, h.l2Bits) <= MAX_L1_ENTRIES
             && h.size <= TWO64 - 1 - Pow2(h.clusterBits + h.l2Bits)
             && Prepared(f, h, name, 8 * L1Entries(h.size, h.clusterBits, h.l2Bits))
    requires |f| < TWO63
    ensures HEADER_SIZE <= |f| && OpenHeader(DecodeHeader(f)).Opened?
    ensures var g := OpenHeader(DecodeHeader(f)).g;
            && g.totalSectors == RoundUp(size, SECTOR) / SECTOR
            && WellFormed(env, g, NewImage(g, f))
            && forall t :: 0 <= t < g.totalSectors ==> GuestSector(env, g, NewImage(g, f), t) == env.Backing(t)
  {
    var h := NewHeader(size, name, encrypt);
    NewHeaderFits(size, name, encrypt);
    HeaderRoundTrip(f, h);
    NewHeaderOpens(size, name, encrypt);
    NewImageWellFormed(env, OpenHeader(h).g, f);
  }

  lemma NewHeaderOpens(size: nat, name: seq<byte>, encrypt: bool)
    requires |name| <= MAX_BACKING_NAME && 0 < size
    requires var h := NewHeader(size, name, encrypt);
             && L1Entries(h.size, h.clusterBits, h.l2Bits) <= MAX_L1_ENTRIES
             && h.size <= TWO64 - 1 - Pow2(h.clusterBits + h.l2Bits)
    ensures var h := NewHeader(size, name, encrypt);
            OpenHeader(h).Opened? && OpenHeader(h).g.Valid() && OpenHeader(h).g.l1Offset == h.l1Offset
            && OpenHeader(h).g.l1Size == L1Entries(h.size, h.clusterBits, h.l2Bits)
            && OpenHeader(h).g.totalSectors == h.size / SECTOR
  {
    var h := NewHeader(size, name, encrypt);
    L1EntriesCover(h.size, h.clusterBits, h.l2Bits);
    OpenHeader(h).g.CoversIff();
  }

  lemma NewImageWellFormed(env: Env, g: Geometry, f: seq<byte>)
    requires env.Laws() && g.Valid() && g.MetaEnd() <= |f| < TWO63 && |f| % SECTOR == 0
    requires forall k :: g.l1Offset <= k < |f| ==> f[k] == 0
    ensures WellFormed(env, g, NewImage(g, f))
    ensures forall t :: 0 <= t < g.totalSectors ==> GuestSector(env, g, NewImage(g, f), t) == env.Backing(t)
  {
    var m := NewImage(g, f);
    forall i | 0 <= i < g.l1Size
      ensures Word(f, g.l1Offset + 8 * i) == 0
    {
      assert f[g.l1Offset + 8 * i..g.l1Offset + 8 * i + 8] == Zeros(8);
      FromBEZeros(8);
    }
    assert Layout(g, m, |f|);
    forall t | 0 <= t < g.totalSectors
      ensures GuestSector(env, g, m, t) == env.Backing(t)
    {
      g.L1IndexInRange(t);
      assert EntryOf(g, m, t).Free?;
    }
  }

  lemma NewHeaderFits(size: nat, name: seq<byte>, encrypt: bool)
    requires |name| <= MAX_BACKING_NAME && RoundUp(size, SECTOR) < TWO64
    ensures FieldsFit(HEADER_WIDTHS, HeaderValues(NewHeader(size, name, encrypt)))
  {
    assert Pow256(1) == 256 && Pow256(2) == 65536 && Pow256(4) == 0x1_0000_0000;
    assert Pow256(8) == TWO64;
  }
}
