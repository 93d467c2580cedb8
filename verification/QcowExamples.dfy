/** Concrete images and requests for which a guest write does not do what it was asked to do. */
module QcowExamples {
  import opened Bytes
  import opened QcowLayout
  import opened QcowState
  import opened QcowImage
  import opened QcowFormat
  import opened QcowGuarantees

  function Run(n: nat, b: byte): (r: seq<byte>)
    ensures |r| == n && forall k :: 0 <= k < n ==> r[k] == b
  {
    seq(n, _ => b)
  }

  predicate Constant(d: seq<byte>)
  {
    |d| > 0 && d == Run(|d|, d[0])
  }

  /** The first half is zeroes. */
  predicate HalfZero(d: seq<byte>)
  {
    d == Zeros(|d| / 2) + d[|d| / 2..]
  }

  /** A small compressor: zeroes take one byte, a repeated byte takes two, a first half of zeroes takes one. */
  function Squeeze(d: seq<byte>): seq<byte>
  {
    if d == Zeros(|d|) then [0]
    else if Constant(d) then [1, d[0]]
    else if HalfZero(d) then [3] + d[|d| / 2..]
    else [2] + d
  }

  function Expand(n: nat, z: seq<byte>): Option<seq<byte>>
  {
    if |z| > 0 && z[0] == 0 then Some(Zeros(n))
    else if |z| > 1 && z[0] == 1 then Some(Run(n, z[1]))
    else if |z| > n && z[0] == 2 then Some(z[1..n + 1])
    else if |z| > n - n / 2 && z[0] == 3 then Some(Zeros(n / 2) + z[1..n - n / 2 + 1])
    else None
  }

  /** Inflating with this compressor clears the buffer first. */
  function Library(backing: Option<seq<seq<byte>>>): Env
  {
    Env(Squeeze, Expand, (k, d) => d, (k, d) => d, (n, z, buffer) => Zeros(n), false, backing)
  }

  lemma LibraryLaws(backing: Option<seq<seq<byte>>>)
    requires backing.Some? ==> forall k :: 0 <= k < |backing.value| ==> |backing.value[k]| == SECTOR
    ensures Library(backing).Laws()
  {
    var env := Library(backing);
    forall d, rest: seq<byte>
      ensures env.EndLaw(d, rest)
    {
      ExpandsBack(d, rest);
    }
    forall d
      ensures env.DeflateLaw(d)
    {
      ExpandsBack(d, []);
      assert Squeeze(d) + [] == Squeeze(d);
    }
  }

  lemma ExpandsBack(d: seq<byte>, rest: seq<byte>)
    ensures |Squeeze(d)| > 0 && Expand(|d|, Squeeze(d) + rest) == Some(d)
  {
    if d != Zeros(|d|) && !Constant(d) {
      if HalfZero(d) {
        assert ([3] + d[|d| / 2..] + rest)[1..|d| - |d| / 2 + 1] == d[|d| / 2..];
      } else {
        assert ([2] + d + rest)[1..|d| + 1] == d;
      }
    }
  }

  /** Clusters of two sectors, one L2 table of 64 entries, a disk of 128 sectors. */
  function SmallGeometry(): Geometry
  {
    Geometry(10, 2, 6, 64, Pow2(53), HEADER_SIZE, 1, 128)
  }

  lemma SmallGeometryValid()
    ensures SmallGeometry().Valid() && SmallGeometry().ClusterSize() == 1024 && SmallGeometry().MetaEnd() == 56
    ensures SmallGeometry().offsetLimit >= 0x1_0000_0000
  {
    assert Pow2(1) == 2 && Pow2(6) == 64 && Pow2(16) == 65536;
    Pow2Add(16, 37);
    Pow2Add(16, 21);
    SmallGeometry().CoversIff();
  }

  function EmptyImage(): Image
  {
    NewImage(SmallGeometry(), Zeros(SECTOR))
  }

  lemma EmptyImageWellFormed(env: Env)
    requires env.Laws()
    ensures SmallGeometry().Valid() && WellFormed(env, SmallGeometry(), EmptyImage()) == true
    ensures forall t :: 0 <= t < 128 ==> GuestSector(env, SmallGeometry(), EmptyImage(), t) == env.Backing(t)
  {
    SmallGeometryValid();
    NewImageWellFormed(env, SmallGeometry(), Zeros(SECTOR));
  }

  /**
   * Writing one sector of a two-sector cluster of a new image with a backing image: the other sector
   * of the cluster no longer reads as the backing image.
   */
  lemma BackingSectorLost(m': Image)
    requires var env := Library(Some([Run(SECTOR, 1), Run(SECTOR, 1)]));
             && env.Laws() && WellFormed(env, SmallGeometry(), EmptyImage()) == true
             && WellFormed(env, SmallGeometry(), m') == true
             && WriteApplied(env, SmallGeometry(), EmptyImage(), m', 0, 1, Zeros(SECTOR)) == true
    ensures !Exact(Library(Some([Run(SECTOR, 1), Run(SECTOR, 1)])), SmallGeometry(), EmptyImage(), m', 0, 1, Zeros(SECTOR))
  {
    var env, g := Library(Some([Run(SECTOR, 1), Run(SECTOR, 1)])), SmallGeometry();
    SmallGeometryValid();
    WriteExactIff(env, g, EmptyImage(), m', 0, 1, Zeros(SECTOR));
    DivModUnique(0, 2, 0, 0);
    DivModUnique(1, 2, 0, 1);
    assert Touched(g, 0, 1, 1);
    assert env.Backing(1).value[0] == 1;
    assert !Survives(env, g, EmptyImage(), 1);
  }

  /** The driver doing so. */
  method LoseBackingSector() returns (q: Qcow)
    ensures fresh(q) && q.Valid() == true && q.env == Library(Some([Run(SECTOR, 1), Run(SECTOR, 1)])) && q.g == SmallGeometry()
    ensures WellFormed(q.env, q.g, EmptyImage()) == true
    ensures !Exact(q.env, q.g, EmptyImage(), q.Img(), 0, 1, Zeros(SECTOR))
  {
    var env := Library(Some([Run(SECTOR, 1), Run(SECTOR, 1)]));
    LibraryLaws(env.backing);
    EmptyImageWellFormed(env);
    SmallGeometryValid();
    q := new Qcow(env, SmallGeometry(), Zeros(SECTOR), NoClusters(SmallGeometry()));
    LevelOneEmpty();
    assert q.Img() == EmptyImage();
    ghost var done;
    var ok;
    NothingPacked(env);
    ok, done := q.Write(0, 1, Zeros(SECTOR));
    assert Zeros(SECTOR)[..SECTOR] == Zeros(SECTOR);
    BackingSectorLost(q.Img());
  }

  lemma NothingPacked(env: Env)
    requires SmallGeometry().Valid() && WellFormed(env, SmallGeometry(), EmptyImage()) == true
    ensures !WriteRefused(env, SmallGeometry(), EmptyImage(), 0, 1)
  {
    SmallGeometry().L1IndexInRange(0);
    assert EntryOf(SmallGeometry(), EmptyImage(), 0).Free?;
  }

  lemma LevelOneEmpty()
    ensures ReadWords(Zeros(SECTOR), HEADER_SIZE, 1) == Zeros(1)
  {
    assert Zeros(SECTOR)[48..56] == Zeros(8);
    FromBEZeros(8);
  }

  /** A compressed write at sector 1 also replaces sector 0, which it was not asked to do. */
  lemma UnalignedMisplaced(m': Image)
    requires var env := Library(None);
             && env.Laws() && WellFormed(env, SmallGeometry(), EmptyImage()) == true
             && WellFormed(env, SmallGeometry(), m') == true && SmallGeometry().ClusterSize() == 1024
             && ClusterReplaced(env, SmallGeometry(), EmptyImage(), m', 1, Run(1024, 1)) == true
    ensures !Exact(Library(None), SmallGeometry(), EmptyImage(), m', 1, 2, Run(1024, 1))
  {
    var env, g := Library(None), SmallGeometry();
    EmptyImageWellFormed(env);
    CompressedWriteExactIff(env, g, EmptyImage(), m', 1, Run(1024, 1));
    DivModUnique(0, 2, 0, 0);
    DivModUnique(1, 2, 0, 1);
    assert GuestSector(env, g, EmptyImage(), 0).value[0] == 0;
    assert Part(Run(1024, 1), 0)[0] == 1;
    assert !Coincides(env, g, EmptyImage(), 1, Run(1024, 1), 0);
  }

  /** The empty image with its L2 table allocated. */
  function TabledImage(): Image
    requires SmallGeometry().Valid()
  {
    AppendTable(SmallGeometry(), EmptyImage(), 0)
  }

  lemma TabledImageWellFormed(env: Env)
    requires env.Laws()
    ensures SmallGeometry().Valid() && WellFormed(env, SmallGeometry(), TabledImage()) == true
    ensures |TabledImage().l1| == 1 && TabledImage().l1[0] != 0 && |TabledImage().file| <= 4096
    ensures TabledImage().clusters == NoClusters(SmallGeometry())
  {
    var g, m := SmallGeometry(), EmptyImage();
    EmptyImageWellFormed(env);
    SmallGeometryValid();
    AppendTableAdds(g, m, 0);
    TableAddedWellFormed(env, g, m, TabledImage(), 0, TabledImage().l1[0]);
  }

  lemma FirstSector(g: Geometry)
    requires g.Valid()
    ensures g.L1Index(0) == 0 && g.L2Index(0) == 0 && g.InCluster(0) == 0
  {
    DivModUnique(0, g.clusterSectors, 0, 0);
    DivModUnique(0, g.l2Size, 0, 0);
  }

  lemma OnesSqueezed()
    ensures Squeeze(Run(1024, 1)) == [1, 1] && Squeeze(Zeros(1024)) == [0]
  {
    assert Run(1024, 1)[0] != Zeros(1024)[0];
  }

  lemma CutOff()
    ensures Inflate(Library(None), 1024, [1, 1][..1]).None?
  {
    assert [1, 1][..1] == [1];
  }

  predicate IsSmall(g: Geometry) { g == SmallGeometry() }

  /** An image whose first cluster is free and has an L2 table. */
  lemma FreeClusterExists(env: Env) returns (g: Geometry, m: Image)
    requires env.Laws()
    ensures IsSmall(g) == true && g.Valid() && 0 < g.totalSectors
    ensures |m.file| < g.offsetLimit && WellFormed(env, g, m) == true && |m.file| % SECTOR == 0
    ensures |m.file| + g.ClusterSize() < TWO63 && g.ClusterSize() % SECTOR == 0
    ensures g.L1Index(0) == 0 < g.l1Size == |m.l1| && g.L2Index(0) == 0 == g.InCluster(0) && m.l1[0] != 0
    ensures |m.clusters| == g.l1Size && |m.clusters[0]| == g.l2Size && m.clusters[0][0].Free?
  {
    g, m := SmallGeometry(), TabledImage();
    SmallGeometryValid();
    TabledImageWellFormed(env);
    FirstSector(g);
  }

  predicate HoldsZeroes(f: seq<byte>, off: nat, n: nat)
  {
    off + n <= |f| && forall k :: off <= k < off + n ==> f[k] == 0
  }

  lemma ZeroesKept(f: seq<byte>, f': seq<byte>, off: nat, n: nat)
    requires HoldsZeroes(f, off, n) == true && SameOn(f, f', off, n)
    ensures HoldsZeroes(f', off, n) == true
  {
    forall k | off <= k < off + n
      ensures f'[k] == 0
    {
      assert f[off..off + n][k - off] == f'[off..off + n][k - off];
    }
  }

  /** An image whose first cluster is plain and holds zeroes. */
  lemma PlainZeroesExist(env: Env) returns (g: Geometry, m: Image)
    requires env.Laws()
    ensures IsSmall(g) == true && g.Valid() && 0 < g.totalSectors && g.InCluster(0) == 0
    ensures WellFormed(env, g, m) == true && EntryOf(g, m, 0).Plain? && EntryOf(g, m, 0).off < g.offsetLimit
    ensures HoldsZeroes(m.file, EntryOf(g, m, 0).off, g.ClusterSize()) == true
  {
    var t;
    g, t := FreeClusterExists(env);
    m := ZeroesLinked(env, g, t, 0);
    FirstEntry(g, m);
  }

  /** A plain cluster of zeroes linked behind the file, after a gap. */
  lemma ZeroesLinked(env: Env, g: Geometry, t: Image, gap: nat) returns (m: Image)
    requires WellFormed(env, g, t) == true && 0 < g.l1Size == |t.l1| && t.l1[0] != 0 && 0 < g.l2Size
    requires |t.clusters| == g.l1Size && |t.clusters[0]| == g.l2Size && t.clusters[0][0].Free?
    requires |t.file| + gap + g.ClusterSize() < TWO63 && gap % SECTOR == 0
    requires g.ClusterSize() % SECTOR == 0 && |t.file| % SECTOR == 0
    ensures WellFormed(env, g, m) == true && |m.clusters| == g.l1Size && |m.clusters[0]| == g.l2Size
    ensures m.clusters[0][0] == Plain(|t.file| + gap) && HoldsZeroes(m.file, |t.file| + gap, g.ClusterSize()) == true
  {
    var f, off := LongerByZeroes(t.file, gap + g.ClusterSize()), |t.file| + gap;
    m := StoreEntry(g, t.(file := f), 0, 0, Plain(off));
    MultiplesAdd(|t.file|, gap, SECTOR);
    MultiplesAdd(off, g.ClusterSize(), SECTOR);
    PlainClusterLinked(env, g, t, t.(file := f), m, 0, 0, off);
    ZeroesKept(f, m.file, off, g.ClusterSize());
  }

  lemma MultiplesAdd(a: nat, b: nat, unit: nat)
    requires unit > 0 && a % unit == 0 && b % unit == 0
    ensures (a + b) % unit == 0
  {
    QuotientRemainder(a, unit);
    QuotientRemainder(b, unit);
    Distribute(Quotient(a, unit), Quotient(b, unit), unit);
    DivModUnique(a + b, unit, Quotient(a, unit) + Quotient(b, unit), 0);
  }

  function LongerByZeroes(f: seq<byte>, n: nat): (r: seq<byte>)
    ensures |r| == |f| + n && f <= r
    ensures HoldsZeroes(r, |f|, n) == true
  {
    f + Zeros(n)
  }

  lemma FirstEntry(g: Geometry, m: Image)
    requires Shape(g, m) && 0 < g.totalSectors && g.L1Index(0) == 0 && g.L2Index(0) == 0
    ensures 0 < |m.clusters| && 0 < |m.clusters[0]| && EntryOf(g, m, 0) == m.clusters[0][0]
  {
    g.L1IndexInRange(0);
  }

  /** An image whose first cluster is plain, holds zeroes, and lies above the offset limit. */
  lemma FarZeroesExist(env: Env) returns (g: Geometry, m: Image)
    requires env.Laws()
    ensures IsSmall(g) == true && g.Valid() && 0 < g.totalSectors && g.InCluster(0) == 0
    ensures WellFormed(env, g, m) == true && EntryOf(g, m, 0).Plain? && g.offsetLimit <= EntryOf(g, m, 0).off
    ensures HoldsZeroes(m.file, EntryOf(g, m, 0).off, g.ClusterSize()) == true
  {
    var t;
    g, t := FreeClusterExists(env);
    LimitInSectors(g);
    m := ZeroesLinked(env, g, t, g.offsetLimit);
    FirstEntry(g, m);
  }

  lemma LimitInSectors(g: Geometry)
    requires IsSmall(g) == true
    ensures g.offsetLimit % SECTOR == 0 && g.offsetLimit < 0x40_0000_0000_0000
  {
    Pow2Add(9, 44);
    assert Pow2(9) == 512;
    MultipleMod(Pow2(44), 512);
    assert Pow2(16) == 65536;
    Pow2Add(16, 37);
    Pow2Add(16, 21);
    assert Pow2(5) == 32;
    Pow2Add(16, 5);
  }

  /** Compressed ones stored for such a cluster: it still holds zeroes. */
  lemma FarClusterMissed(g: Geometry, m: Image, m': Image)
    requires IsSmall(g) == true && g.Valid() && g.ClusterSize() == 1024 && 0 < g.totalSectors && g.InCluster(0) == 0
    requires WellFormed(Library(None), g, m) == true && EntryOf(g, m, 0).Plain? && g.offsetLimit <= EntryOf(g, m, 0).off
    requires HoldsZeroes(m.file, EntryOf(g, m, 0).off, g.ClusterSize()) == true
    requires Overwritten(g, m, m', 0, Squeeze(Run(1024, 1))) == true
    ensures EntryOf(g, m, 0).off + g.ClusterSize() <= |m'.file|
    ensures exists t :: 0 <= t < 2 && t < g.totalSectors
              && EntrySector(Library(None), g, m'.file, EntryOf(g, m, 0), t) != Some(Part(Run(1024, 1), t))
  {
    var ones := Run(1024, 1);
    OnesSqueezed();
    SmallFacts(g);
    CompressedOverFarPlainIff(Library(None), g, m, m', 0, ones);
    ZeroSector(g, m, EntryOf(g, m, 0).off);
    assert Part(ones, 0 - 0)[0] == 1;
    assert GuestSector(Library(None), g, m, 0) != Some(Part(ones, 0 - 0));
  }

  lemma ZeroSector(g: Geometry, m: Image, off: nat)
    requires WellFormed(Library(None), g, m) == true && 0 < g.totalSectors && g.InCluster(0) == 0 && g.ClusterSize() == 1024
    requires EntryOf(g, m, 0) == Plain(off) && HoldsZeroes(m.file, off, g.ClusterSize()) == true
    ensures GuestSector(Library(None), g, m, 0) == Some(Zeros(SECTOR))
  {
    assert m.file[off..off + SECTOR] == Zeros(SECTOR);
  }

  /** Compressed ones stored over a plain cluster of zeroes: two bytes of ones in front of zeroes. */
  lemma PlainClusterSpoiled(g: Geometry, m: Image, m': Image)
    requires IsSmall(g) == true && g.Valid() && g.ClusterSize() == 1024 && 0 < g.totalSectors && g.InCluster(0) == 0
    requires WellFormed(Library(None), g, m) == true && EntryOf(g, m, 0).Plain? && EntryOf(g, m, 0).off < g.offsetLimit
    requires HoldsZeroes(m.file, EntryOf(g, m, 0).off, g.ClusterSize()) == true
    requires Overwritten(g, m, m', 0, Squeeze(Run(1024, 1))) == true
    ensures WellFormed(Library(None), g, m') == true
    ensures !Exact(Library(None), g, m, m', 0, 2, Run(1024, 1))
  {
    var ones := Run(1024, 1);
    OnesSqueezed();
    CompressedOverPlainUnencrypted(Library(None), g, m, m', 0, ones);
    ZeroTail(m.file, EntryOf(g, m, 0).off, ones);
  }

  /** The rest of the cluster is not ones. */
  lemma ZeroTail(f: seq<byte>, w: nat, ones: seq<byte>)
    requires HoldsZeroes(f, w, 1024) == true && ones == Run(1024, 1)
    ensures f[w + 2..w + 1024] != ones[2..]
  {
    assert f[w + 2..w + 1024][0] == f[w + 2] == 0 && ones[2..][0] == 1;
  }

  /** At the offset limit a new compressed cluster is linked, and stored, somewhere else. */
  lemma PlacedInsideFile()
    ensures SmallGeometry().Valid()
    ensures CompressedOffset(SmallGeometry(), Pack(SmallGeometry(), SmallGeometry().offsetLimit, 2)) < SmallGeometry().offsetLimit
  {
    SmallGeometryValid();
    OffsetOfPacked(SmallGeometry(), SmallGeometry().offsetLimit, 2);
  }

  // ----- runs of the driver -----

  lemma SmallFacts(g: Geometry)
    requires IsSmall(g) == true
    ensures g.Valid() && g.ClusterSize() == 1024 && g.clusterSectors == 2 && g.l1Size == 1 && g.l2Size == 64
    ensures g.totalSectors == 128 && g.offsetLimit >= 0x1_0000_0000 && TableBytes(g) == 512 && Slack(g) == 5120
    ensures g.L1Index(0) == 0 && g.L2Index(0) == 0 && g.InCluster(0) == 0 && g.Cluster(0) == 0
    ensures g.L1Index(2) == 0 && g.L2Index(2) == 1 && g.InCluster(2) == 0 && g.Cluster(2) == 1
  {
    SmallGeometryValid();
    FirstSector(g);
    DivModUnique(0, 2, 0, 0);
    DivModUnique(2, 2, 1, 0);
    DivModUnique(1, 64, 0, 1);
  }

  /** What a compressed write of a free cluster leaves. */
  lemma FreshStored(env: Env, g: Geometry, m: Image, before: Image, m': Image, s: nat, data: seq<byte>)
    requires WellFormed(env, g, m) == true && s < g.totalSectors
    requires 0 < |env.deflate(data)| < g.ClusterSize() && EntryOf(g, m, s).Free?
    requires |m.file| + Slack(g) < TWO63 && |m.file| + Slack(g) <= g.offsetLimit && g.L1Index(s) < g.l1Size == |m.l1|
    requires before == WithTable(g, m, g.L1Index(s)) && |before.l1| == g.l1Size && before.clusters == m.clusters
    requires m' == WithCompressed(env, g, before, s, data)
    ensures Shape(g, m') == true && Keeps(g, m, m', g.L1Index(s), g.L2Index(s)) == true
    ensures PackedAlone(env, g, m', s, |before.file|, data) == true
    ensures |m.file| <= |before.file| && EndsBehind(env, m', |before.file|, data) == true
    ensures |m'.file| <= |m.file| + Slack(g) && (m.l1[g.L1Index(s)] != 0 ==> m'.l1 == m.l1)
  {
    TableForData(env, g, m, g.L1Index(s));
    LaidOutAlone(env, g, before, s, data);
    KeepsAfter(g, m, before, m', g.L1Index(s), g.L2Index(s));
  }

  lemma FreshPlaced(env: Env, g: Geometry, m: Image, m': Image, valid: bool, s: nat, data: seq<byte>)
    requires WellFormed(env, g, m) == true && s < g.totalSectors && |data| == g.ClusterSize()
    requires 0 < |env.deflate(data)| < g.ClusterSize() && EntryOf(g, m, s).Free?
    requires DataEnd(g, m, s) < g.offsetLimit && DataEnd(g, m, s) < TWO63
    requires valid ==> WellFormed(env, g, m') == true
    requires CompressedOutcome(env, g, m, m', valid, s, data) == true
    ensures valid && ClusterReplaced(env, g, m, m', s, data) == true && g.L1Index(s) < g.l1Size
    ensures WithTable(g, m, g.L1Index(s)).clusters == m.clusters && |WithTable(g, m, g.L1Index(s)).l1| == g.l1Size
    ensures m' == WithCompressed(env, g, WithTable(g, m, g.L1Index(s)), s, data)
  {
    assert CompressedOutcome(env, g, m, m', valid, s, data);
    g.L1IndexInRange(s);
    PackRoundTrip(g, DataEnd(g, m, s), |env.deflate(data)|);
  }

  lemma LaidOutAlone(env: Env, g: Geometry, m: Image, s: nat, data: seq<byte>)
    requires WellFormed(env, g, m) == true && s < g.totalSectors
    requires 0 < |env.deflate(data)| < g.ClusterSize()
    requires |m.file| < g.offsetLimit && |m.file| + |env.deflate(data)| + SECTOR < TWO63
    requires g.L1Index(s) < g.l1Size && m.l1[g.L1Index(s)] != 0 && m.clusters[g.L1Index(s)][g.L2Index(s)].Free?
    ensures var m3 := WithCompressed(env, g, m, s, data);
            && Shape(g, m3) == true && Keeps(g, m, m3, g.L1Index(s), g.L2Index(s)) == true
            && PackedAlone(env, g, m3, s, |m.file|, data) == true
            && EndsBehind(env, m3, |m.file|, data) == true
  {
    CompressedLaidOut(env, g, m, s, data);
    assert TableStored(g, m, g.L1Index(s), |m.file|);
    var m3 := WithCompressed(env, g, m, s, data);
    assert Shape(g, m3);
    assert EntryOf(g, m3, s) == m3.clusters[g.L1Index(s)][g.L2Index(s)];
    StoredLength(env, g, m, s, data);
  }

  lemma StoredLength(env: Env, g: Geometry, m: Image, s: nat, data: seq<byte>)
    requires Shape(g, m) == true && s < g.totalSectors && g.L1Index(s) < g.l1Size
    requires m.l1[g.L1Index(s)] + TableBytes(g) <= |m.file|
    ensures EndsBehind(env, WithCompressed(env, g, m, s, data), |m.file|, data) == true
  {
    var e := Packed(|m.file|, |env.deflate(data)|);
    HostWriteLength(m.file, m.l1[g.L1Index(s)] + 8 * g.L2Index(s), ToBE(8, EncodeEntry(g, e)));
  }

  lemma TableForData(env: Env, g: Geometry, m: Image, i: nat)
    requires WellFormed(env, g, m) == true && i < g.l1Size && |m.file| + Slack(g) < TWO63
    ensures var before := WithTable(g, m, i);
            && WellFormed(env, g, before) == true && Keeps(g, m, before, -1, -1) == true
            && before.l1[i] != 0 && before.clusters == m.clusters
            && |m.file| <= |before.file| <= |m.file| + TableBytes(g) + g.ClusterSize() + SECTOR
  {
    if m.l1[i] == 0 {
      AppendTableAdds(g, m, i);
      TableAddedWellFormed(env, g, m, AppendTable(g, m, i), i, AppendTable(g, m, i).l1[i]);
    } else {
      KeepsSelf(g, m);
    }
  }

  /** The file ends with the sector in which the compressed form of `data` ends. */
  predicate EndsBehind(env: Env, m: Image, off: nat, data: seq<byte>)
  {
    |m.file| == RoundUp(off + |env.deflate(data)|, SECTOR)
  }

  /** The cluster of `s` is compressed and holds `data`, stored at `off` behind its L2 table. */
  ghost predicate PackedAlone(env: Env, g: Geometry, m: Image, s: nat, off: nat, data: seq<byte>)
  {
    && Shape(g, m) && s < g.totalSectors && g.L1Index(s) < g.l1Size
    && EntryOf(g, m, s) == Packed(off, |env.deflate(data)|) && off + |env.deflate(data)| <= |m.file|
    && m.file[off..off + |env.deflate(data)|] == env.deflate(data)
    && m.l1[g.L1Index(s)] + TableBytes(g) <= off
  }

  /** A driver for a new image of the small geometry, without a backing image. */
  method NewDriver() returns (q: Qcow)
    ensures fresh(q) && SmallImage(q.env, q.g, q.Img()) == true && q.Valid() == true
    ensures q.Img() == EmptyImage() && q.clusterCacheOffset == -1 && q.clusterCache == []
    ensures forall s :: 0 <= s < q.g.totalSectors ==> EntryOf(q.g, q.Img(), s).Free?
    ensures |q.file| == SECTOR
  {
    var env := Library(None);
    LibraryLaws(None);
    EmptyImageWellFormed(env);
    SmallGeometryValid();
    q := new Qcow(env, SmallGeometry(), Zeros(SECTOR), NoClusters(SmallGeometry()));
    LevelOneEmpty();
    assert q.Img() == EmptyImage();
    NothingAllocated();
  }

  lemma NothingAllocated()
    requires SmallGeometry().Valid() && Shape(SmallGeometry(), EmptyImage())
    ensures forall s :: 0 <= s < SmallGeometry().totalSectors ==> EntryOf(SmallGeometry(), EmptyImage(), s).Free?
  {
    forall s | 0 <= s < SmallGeometry().totalSectors
      ensures EntryOf(SmallGeometry(), EmptyImage(), s).Free?
    {
      SmallGeometry().L1IndexInRange(s);
    }
  }

  ghost predicate SmallImage(env: Env, g: Geometry, m: Image)
  {
    env == Library(None) && IsSmall(g) && WellFormed(env, g, m)
  }

  /** Compresses two sectors into a free cluster. */
  method StoreFresh(q: Qcow, s: nat, data: seq<byte>) returns (ghost before: Image)
    requires SmallImage(q.env, q.g, q.Img()) == true && q.Valid() == true && |q.file| <= 20000
    requires s < q.g.totalSectors && EntryOf(q.g, q.Img(), s).Free? && |data| == 1024 && |q.env.deflate(data)| < 1024
    modifies q
    ensures SmallImage(q.env, q.g, q.Img()) == true && q.Valid() == true
    ensures q.clusterCacheOffset == old(q.clusterCacheOffset) && q.clusterCache == old(q.clusterCache)
    ensures Keeps(q.g, old(q.Img()), q.Img(), q.g.L1Index(s), q.g.L2Index(s)) == true
    ensures PackedAlone(q.env, q.g, q.Img(), s, |before.file|, data) == true
    ensures EndsBehind(q.env, q.Img(), |before.file|, data) == true
    ensures old(|q.file|) <= |before.file| && |q.file| <= old(|q.file|) + 5120
    ensures q.g.L1Index(s) < |old(q.l1)| && (old(q.l1)[q.g.L1Index(s)] != 0 ==> q.l1 == old(q.l1) && before == old(q.Img()))
  {
    ghost var m := q.Img();
    SmallFacts(q.g);
    q.g.L1IndexInRange(s);
    before := WithTable(q.g, m, q.g.L1Index(s));
    TableForData(q.env, q.g, m, q.g.L1Index(s));
    assert q.env.DeflateLaw(data);
    assert Padded(q.g, 2, data) == data;
    var r := q.WriteCompressed(s, 2, data);
    FreshPlaced(q.env, q.g, m, q.Img(), q.Valid(), s, data);
    FreshStored(q.env, q.g, m, before, q.Img(), s, data);
  }

  /** Storing another cluster behind it leaves a compressed cluster as it is. */
  lemma KeptAlone(env: Env, g: Geometry, m: Image, m': Image, s: nat, t: nat, off: nat, data: seq<byte>)
    requires PackedAlone(env, g, m, s, off, data) == true && Shape(g, m') == true && m'.l1 == m.l1
    requires Keeps(g, m, m', g.L1Index(t), g.L2Index(t)) == true && g.Cluster(s) != g.Cluster(t)
    ensures PackedAlone(env, g, m', s, off, data) == true
  {
    IndexesOfCluster(g, s, t);
    assert PackedAlone(env, g, m, s, off, data);
  }

  lemma AloneReads(env: Env, g: Geometry, m: Image, s: nat, off: nat, data: seq<byte>)
    requires env.Laws() && PackedAlone(env, g, m, s, off, data) == true && |data| == g.ClusterSize()
    ensures EntryOf(g, m, s) == Packed(off, |env.deflate(data)|) && off + |env.deflate(data)| <= |m.file|
    ensures Decompress(env, g, m.file, EntryOf(g, m, s)) == Some(data)
    ensures m.l1[g.L1Index(s)] + TableBytes(g) <= off
  {
    assert PackedAlone(env, g, m, s, off, data);
    assert env.DeflateLaw(data);
  }

  /** Two compressed clusters, one behind the other. */
  ghost predicate TwoPacked(env: Env, g: Geometry, m: Image, a: nat, b: nat, d0: seq<byte>, d2: seq<byte>)
  {
    && PackedAlone(env, g, m, 0, a, d0) && PackedAlone(env, g, m, 2, b, d2)
    && b == RoundUp(a + |env.deflate(d0)|, SECTOR)
  }

  /** After one cluster has been compressed into a new image. */
  lemma OneStored(env: Env, g: Geometry, m0: Image, m: Image, a: nat, d0: seq<byte>)
    requires SmallImage(env, g, m0) == true && SmallImage(env, g, m) == true
    requires g.L1Index(2) < g.l1Size && 2 < g.totalSectors && EntryOf(g, m0, 2).Free?
    requires Keeps(g, m0, m, g.L1Index(0), g.L2Index(0)) == true && PackedAlone(env, g, m, 0, a, d0) == true
    ensures EntryOf(g, m, 2).Free? && m.l1[g.L1Index(2)] != 0 && g.Cluster(0) != g.Cluster(2)
  {
    SmallFacts(g);
    AloneTable(env, g, m, 0, a, d0);
  }

  lemma AloneTable(env: Env, g: Geometry, m: Image, s: nat, off: nat, data: seq<byte>)
    requires WellFormed(env, g, m) == true && PackedAlone(env, g, m, s, off, data) == true
    ensures m.l1[g.L1Index(s)] != 0
  {
    assert PackedAlone(env, g, m, s, off, data);
    SectorTable(env, g, m, s);
  }

  /** After a second one, behind the first. */
  lemma TwoStored(env: Env, g: Geometry, m: Image, m': Image, a: nat, b: nat, d0: seq<byte>, d2: seq<byte>)
    requires PackedAlone(env, g, m, 0, a, d0) == true && EndsBehind(env, m, a, d0) == true && b == |m.file|
    requires Shape(g, m') == true && m'.l1 == m.l1 && g.Cluster(0) != g.Cluster(2)
    requires Keeps(g, m, m', g.L1Index(2), g.L2Index(2)) == true && PackedAlone(env, g, m', 2, b, d2) == true
    ensures TwoPacked(env, g, m', a, b, d0, d2) == true
  {
    KeptAlone(env, g, m, m', 0, 2, a, d0);
  }

  /** Compresses two clusters into a new image. */
  method StoreTwo(d0: seq<byte>, d2: seq<byte>) returns (q: Qcow, ghost a: nat, ghost b: nat)
    requires |d0| == 1024 && |d2| == 1024 && |Squeeze(d0)| < 1024 && |Squeeze(d2)| < 1024
    ensures fresh(q) && SmallImage(q.env, q.g, q.Img()) == true && q.Valid() == true && |q.file| <= 20000
    ensures q.clusterCacheOffset == -1 && q.clusterCache == []
    ensures TwoPacked(q.env, q.g, q.Img(), a, b, d0, d2) == true
  {
    q := NewDriver();
    SmallFacts(q.g);
    ghost var m0 := q.Img();
    ghost var before := StoreFresh(q, 0, d0);
    a := |before.file|;
    ghost var m := q.Img();
    OneStored(q.env, q.g, m0, m, a, d0);
    before := StoreFresh(q, 2, d2);
    b := |before.file|;
    TwoStored(q.env, q.g, m, q.Img(), a, b, d0, d2);
  }

  /** Compresses two sectors into a cluster that is compressed already. */
  method StoreOver(q: Qcow, s: nat, data: seq<byte>, ghost off: nat, ghost was: seq<byte>)
    requires SmallImage(q.env, q.g, q.Img()) == true && q.Valid() == true && |q.file| <= 20000
    requires |data| == 1024 && |q.env.deflate(data)| < 1024
    requires PackedAlone(q.env, q.g, q.Img(), s, off, was) == true
    modifies q
    ensures SmallImage(q.env, q.g, q.Img()) == true && q.Valid() == true
    ensures q.clusterCacheOffset == old(q.clusterCacheOffset) && q.clusterCache == old(q.clusterCache)
    ensures q.Img() == OverStored(q.env, old(q.Img()), off, data)
  {
    ghost var m := q.Img();
    SmallFacts(q.g);
    AloneInFile(q.env, q.g, m, s, off, was);
    assert q.env.DeflateLaw(data);
    assert Padded(q.g, 2, data) == data;
    var r := q.WriteCompressed(s, 2, data);
    OverwrittenAlone(q.env, q.g, m, q.Img(), q.Valid(), s, data, off, was);
  }

  /** The image once the compressed form of `data` has been written at `off`. */
  function OverStored(env: Env, m: Image, off: nat, data: seq<byte>): Image
  {
    m.(file := HostWrite(m.file, off, env.deflate(data)))
  }

  lemma AloneInFile(env: Env, g: Geometry, m: Image, s: nat, off: nat, was: seq<byte>)
    requires PackedAlone(env, g, m, s, off, was) == true
    ensures s < g.totalSectors
  {
  }

  lemma OverwrittenAlone(env: Env, g: Geometry, m: Image, m': Image, valid: bool, s: nat, data: seq<byte>, off: nat, was: seq<byte>)
    requires SmallImage(env, g, m) == true && s < g.totalSectors && |data| == g.ClusterSize()
    requires PackedAlone(env, g, m, s, off, was) == true
    requires valid ==> WellFormed(env, g, m') == true
    requires CompressedOutcome(env, g, m, m', valid, s, data) == true
    ensures valid && m' == OverStored(env, m, off, data)
  {
    SmallFacts(g);
    assert PackedAlone(env, g, m, s, off, was);
    EntryOkInFile(env, g, m, s);
    assert TablesClear(g, m, off, |env.deflate(data)|);
    PackedOutcome(env, g, m, m', valid, s, data);
  }

  lemma PackedOutcome(env: Env, g: Geometry, m: Image, m': Image, valid: bool, s: nat, data: seq<byte>)
    requires WellFormed(env, g, m) == true && s < g.totalSectors && |data| == g.ClusterSize()
    requires valid ==> WellFormed(env, g, m') == true
    requires EntryOf(g, m, s).Packed? && TablesClear(g, m, EntryOf(g, m, s).off, |env.deflate(data)|) == true
    requires CompressedOutcome(env, g, m, m', valid, s, data) == true
    ensures valid
    ensures m' == m.(file := HostWrite(m.file, CompressedOffset(g, EncodeEntry(g, EntryOf(g, m, s))), env.deflate(data)))
  {
    assert CompressedOutcome(env, g, m, m', valid, s, data);
  }

  /** Reads of a compressed cluster: inflated, failing, and served from the cache. */
  lemma InflatedRun(env: Env, g: Geometry, m: Image, s: nat, was: Cache, cache: Cache, r: Option<seq<byte>>, data: seq<byte>)
    requires SmallImage(env, g, m) == true && s + 2 <= g.totalSectors && g.InCluster(s) + 2 <= g.clusterSectors
    requires KeyOk(g, m.file, was.key, was.data) && RunOutcome(env, g, m, s, 2, was, cache, r) == true
    requires EntryOf(g, m, s).Packed? && EntryOf(g, m, s).off + EntryOf(g, m, s).size <= |m.file|
    requires EntryOf(g, m, s).off != was.key && Decompress(env, g, m.file, EntryOf(g, m, s)) == Some(data)
    requires g.InCluster(s) == 0
    ensures r == Some(data) && cache == Cache(EntryOf(g, m, s).off, data)
  {
    SmallFacts(g);
    assert RunOutcome(env, g, m, s, 2, was, cache, r);
    assert data[SECTOR * 0..SECTOR * 0 + SECTOR * 2] == data;
  }

  lemma FailedRun(env: Env, g: Geometry, m: Image, s: nat, was: Cache, cache: Cache, r: Option<seq<byte>>)
    requires SmallImage(env, g, m) == true && s + 2 <= g.totalSectors && g.InCluster(s) + 2 <= g.clusterSectors
    requires KeyOk(g, m.file, was.key, was.data) && RunOutcome(env, g, m, s, 2, was, cache, r) == true
    requires EntryOf(g, m, s).Packed? && EntryOf(g, m, s).off + EntryOf(g, m, s).size <= |m.file|
    requires EntryOf(g, m, s).off != was.key && Decompress(env, g, m.file, EntryOf(g, m, s)).None?
    ensures r == None && cache == Cache(was.key, Zeros(1024))
  {
    SmallFacts(g);
    assert RunOutcome(env, g, m, s, 2, was, cache, r);
  }

  lemma CachedCopyRun(env: Env, g: Geometry, m: Image, s: nat, was: Cache, cache: Cache, r: Option<seq<byte>>)
    requires SmallImage(env, g, m) == true && s + 2 <= g.totalSectors && g.InCluster(s) + 2 <= g.clusterSectors
    requires KeyOk(g, m.file, was.key, was.data) && RunOutcome(env, g, m, s, 2, was, cache, r) == true
    requires EntryOf(g, m, s).Packed? && EntryOf(g, m, s).off == was.key
    requires g.InCluster(s) == 0 && |was.data| == 1024
    ensures r == Some(was.data) && cache == was
  {
    SmallFacts(g);
    assert RunOutcome(env, g, m, s, 2, was, cache, r);
    assert was.data[SECTOR * 0..SECTOR * 0 + SECTOR * 2] == was.data;
  }

  /** Ones over zeroes in the second cluster: the first is as it was, the second does not inflate any more. */
  lemma SecondCutOff(env: Env, g: Geometry, m: Image, a: nat, b: nat)
    requires SmallImage(env, g, m) == true && TwoPacked(env, g, m, a, b, Run(1024, 1), Zeros(1024)) == true
    ensures var m' := OverStored(env, m, b, Run(1024, 1));
            && a != b && Shape(g, m') && PackedAlone(env, g, m', 0, a, Run(1024, 1)) == true
            && 2 < g.totalSectors && EntryOf(g, m', 2) == Packed(b, 1) && b + 1 <= |m'.file|
            && Decompress(env, g, m'.file, Packed(b, 1)).None?
  {
    var ones := Run(1024, 1);
    SmallFacts(g);
    OnesSqueezed();
    AlonePair(env, g, m, a, b, ones, Zeros(1024));
    WriteChangesOnly(m.file, b, [1, 1]);
    BehindAlone(env, g, m, a, b, ones, [1, 1]);
    FirstByteStays(env, g, m.file, b);
  }

  lemma AlonePair(env: Env, g: Geometry, m: Image, a: nat, b: nat, d0: seq<byte>, d2: seq<byte>)
    requires TwoPacked(env, g, m, a, b, d0, d2) == true
    ensures PackedAlone(env, g, m, 0, a, d0) == true && PackedAlone(env, g, m, 2, b, d2) == true
    ensures 2 < g.totalSectors && Shape(g, m) && EntryOf(g, m, 2) == Packed(b, |env.deflate(d2)|)
    ensures b + |env.deflate(d2)| <= |m.file| && a + |env.deflate(d0)| <= b
  {
    assert PackedAlone(env, g, m, 2, b, d2);
  }

  /** Bytes written behind a compressed cluster leave it alone. */
  lemma BehindAlone(env: Env, g: Geometry, m: Image, a: nat, b: nat, d0: seq<byte>, z: seq<byte>)
    requires PackedAlone(env, g, m, 0, a, d0) == true && a + |env.deflate(d0)| <= b <= |m.file|
    requires Shape(g, m.(file := HostWrite(m.file, b, z))) == true
    ensures PackedAlone(env, g, m.(file := HostWrite(m.file, b, z)), 0, a, d0) == true
  {
    assert PackedAlone(env, g, m, 0, a, d0);
    HostWriteFrame(m.file, b, z, a, |env.deflate(d0)|);
  }

  lemma FirstByteStays(env: Env, g: Geometry, f: seq<byte>, b: nat)
    requires env == Library(None) && g.ClusterSize() == 1024 && b + 1 <= |f|
    ensures var f' := HostWrite(f, b, [1, 1]);
            b + 1 <= |f'| && Decompress(env, g, f', Packed(b, 1)).None?
  {
    var f' := HostWrite(f, b, [1, 1]);
    assert f'[b..b + 1] == [1];
    CutOff();
    assert [1, 1][..1] == [1];
  }

  /** Ones stored over zeroes in the second of two clusters: the stream is longer, and is cut off. */
  method CutOffSecond() returns (q: Qcow, ghost a: nat, ghost b: nat)
    ensures fresh(q) && SmallImage(q.env, q.g, q.Img()) == true && q.Valid() == true
    ensures q.clusterCacheOffset == -1 && q.clusterCache == [] && |q.file| <= 30000
    ensures a != b && PackedAlone(q.env, q.g, q.Img(), 0, a, Run(1024, 1)) == true
    ensures 2 < q.g.totalSectors && EntryOf(q.g, q.Img(), 2) == Packed(b, 1) && b + 1 <= |q.file|
    ensures Decompress(q.env, q.g, q.file, Packed(b, 1)).None?
  {
    OnesSqueezed();
    q, a, b := StoreTwo(Run(1024, 1), Zeros(1024));
    ghost var m := q.Img();
    SmallFacts(q.g);
    AlonePair(q.env, q.g, m, a, b, Run(1024, 1), Zeros(1024));
    StoreOver(q, 2, Run(1024, 1), b, Zeros(1024));
    SecondCutOff(q.env, q.g, m, a, b);
    ShortWrite(m.file, b);
  }

  lemma ShortWrite(f: seq<byte>, b: nat)
    requires b <= |f| <= 20000
    ensures |HostWrite(f, b, [1, 1])| <= 30000
  {
  }

  /** The cluster cannot be read: the ones just written are lost. */
  method LoseLongerStream() returns (q: Qcow, r: Option<seq<byte>>)
    ensures fresh(q) && SmallImage(q.env, q.g, q.Img()) == true && q.Valid() == true && r == None
  {
    ghost var a, b;
    q, a, b := CutOffSecond();
    SmallFacts(q.g);
    r := q.ReadRun(2, 2);
    FailedRun(q.env, q.g, q.Img(), 2, Cache(-1, []), Cache(q.clusterCacheOffset, q.clusterCache), r);
  }

  /**
   * Good data read after a cluster that does not inflate: the first cluster holds ones and reads as
   * ones; reading the second fails and clears the buffer; then the first reads as zeroes.
   */
  method ServeJunk() returns (q: Qcow, first: Option<seq<byte>>, second: Option<seq<byte>>, third: Option<seq<byte>>)
    ensures fresh(q) && SmallImage(q.env, q.g, q.Img()) == true && q.Valid() == true && 2 <= q.g.totalSectors
    ensures first == Some(Run(1024, 1)) && second == None && third == Some(Zeros(1024))
    ensures ReadsAs(q.env, q.g, q.Img(), 0, 2, first) && !ReadsAs(q.env, q.g, q.Img(), 0, 2, third)
  {
    var ones := Run(1024, 1);
    ghost var a, b;
    q, a, b := CutOffSecond();
    ghost var m := q.Img();
    SmallFacts(q.g);
    AloneReads(q.env, q.g, m, 0, a, ones);
    first := q.ReadRun(0, 2);
    InflatedRun(q.env, q.g, m, 0, Cache(-1, []), Cache(q.clusterCacheOffset, q.clusterCache), first, ones);
    second := q.ReadRun(2, 2);
    FailedRun(q.env, q.g, m, 2, Cache(a, ones), Cache(q.clusterCacheOffset, q.clusterCache), second);
    third := q.ReadRun(0, 2);
    CachedCopyRun(q.env, q.g, m, 0, Cache(a, Zeros(1024)), Cache(q.clusterCacheOffset, q.clusterCache), third);
    OnesNotZeroes(q.env, q.g, m, first, third);
  }

  /** Zeroes stored over a compressed cluster of ones whose copy is cached: ones are still served. */
  method ServeStaleCopy() returns (q: Qcow, before: Option<seq<byte>>, after: Option<seq<byte>>)
    ensures fresh(q) && SmallImage(q.env, q.g, q.Img()) == true && q.Valid() == true && 2 <= q.g.totalSectors
    ensures before == Some(Run(1024, 1)) && after == before
    ensures ReadsAs(q.env, q.g, q.Img(), 0, 2, Some(Zeros(1024))) == true
  {
    var ones := Run(1024, 1);
    OnesSqueezed();
    ghost var a, b;
    q, a, b := StoreTwo(ones, Zeros(1024));
    ghost var m := q.Img();
    SmallFacts(q.g);
    AlonePair(q.env, q.g, m, a, b, ones, Zeros(1024));
    AloneReads(q.env, q.g, m, 0, a, ones);
    before := q.ReadRun(0, 2);
    InflatedRun(q.env, q.g, m, 0, Cache(-1, []), Cache(q.clusterCacheOffset, q.clusterCache), before, ones);
    StoreOver(q, 0, Zeros(1024), a, ones);
    ZeroesStored(q.env, q.g, m, q.Img(), a);
    after := q.ReadRun(0, 2);
    CachedCopyRun(q.env, q.g, q.Img(), 0, Cache(a, ones), Cache(q.clusterCacheOffset, q.clusterCache), after);
  }

  /** Zeroes have a shorter stream than ones, so that the image does hold them. */
  lemma ZeroesStored(env: Env, g: Geometry, m: Image, m': Image, a: nat)
    requires SmallImage(env, g, m) == true && SmallImage(env, g, m') == true
    requires PackedAlone(env, g, m, 0, a, Run(1024, 1)) == true && m' == OverStored(env, m, a, Zeros(1024))
    ensures 2 <= g.totalSectors && EntryOf(g, m', 0) == Packed(a, 2) && ReadsAs(env, g, m', 0, 2, Some(Zeros(1024))) == true
  {
    SmallFacts(g);
    OnesSqueezed();
    AloneReads(env, g, m, 0, a, Run(1024, 1));
    PackedReads(env, g, m.file, Packed(a, 2), Zeros(1024));
    CachedRun(env, g, m', 0, 2, Zeros(1024));
    assert Zeros(1024)[SECTOR * 0..SECTOR * 0 + SECTOR * 2] == Zeros(1024);
  }

  lemma OnesNotZeroes(env: Env, g: Geometry, m: Image, first: Option<seq<byte>>, third: Option<seq<byte>>)
    requires SmallImage(env, g, m) == true && 2 <= g.totalSectors && g.InCluster(0) == 0 && g.clusterSectors == 2
    requires first == Some(Run(1024, 1)) && third == Some(Zeros(1024))
    requires EntryOf(g, m, 0).Packed? && EntryOf(g, m, 0).off + EntryOf(g, m, 0).size <= |m.file|
    requires Decompress(env, g, m.file, EntryOf(g, m, 0)) == first
    ensures ReadsAs(env, g, m, 0, 2, first) == true && ReadsAs(env, g, m, 0, 2, third) == false
  {
    CachedRun(env, g, m, 0, 2, first.value);
    assert first.value[SECTOR * 0..SECTOR * 0 + SECTOR * 2] == first.value;
    assert Part(first.value, 0)[0] == 1 && Part(third.value, 0)[0] == 0;
    OneReading(env, g, m, 0, 2, first.value, third.value);
  }

  /** Two different buffers are not both what a run reads as. */
  lemma OneReading(env: Env, g: Geometry, m: Image, s: nat, n: nat, buf: seq<byte>, other: seq<byte>)
    requires WellFormed(env, g, m) == true && s + n <= g.totalSectors && 0 < n
    requires ReadsAs(env, g, m, s, n, Some(buf)) == true
    requires |buf| == SECTOR * n == |other| && Part(buf, 0) != Part(other, 0)
    ensures ReadsAs(env, g, m, s, n, Some(other)) == false
  {
    assert ReadsAs(env, g, m, s, n, Some(buf));
    assert GuestSector(env, g, m, s) == Some(Part(buf, s - s));
    assert Some(Part(other, s - s)) != Some(Part(buf, s - s));
  }

  /** Zeroes and then sevens: a stream of 513 bytes. */
  function HalfSevens(): (r: seq<byte>)
    ensures |r| == 1024
  {
    Zeros(512) + Run(512, 7)
  }

  lemma HalfSqueezed()
    ensures Squeeze(HalfSevens()) == [3] + Run(512, 7)
  {
    var d := HalfSevens();
    assert d[1023] == 7 && d[0] == 0 && Run(1024, 0)[1023] == 0;
    assert d[512..] == Run(512, 7);
  }

  /** That stream over zeroes in the first cluster runs one byte into the second, which held ones. */
  lemma NeighbourSpoiled(env: Env, g: Geometry, m: Image, a: nat, b: nat)
    requires SmallImage(env, g, m) == true && TwoPacked(env, g, m, a, b, Zeros(1024), Run(1024, 1)) == true
    ensures var m' := OverStored(env, m, a, HalfSevens());
            && 2 < g.totalSectors && EntryOf(g, m, 2) == Packed(b, 2) && b + 2 <= |m.file| <= |m'.file|
            && Shape(g, m') && EntryOf(g, m', 2) == Packed(b, 2)
            && Decompress(env, g, m.file, Packed(b, 2)) == Some(Run(1024, 1))
            && Decompress(env, g, m'.file, Packed(b, 2)).None?
  {
    SmallFacts(g);
    HalfSqueezed();
    NextBehind(env, g, m, a, b);
    SpilledByte(env, g, m.file, a);
    SameTables(g, m, HostWrite(m.file, a, [3] + Run(512, 7)));
  }

  lemma NextBehind(env: Env, g: Geometry, m: Image, a: nat, b: nat)
    requires SmallImage(env, g, m) == true && TwoPacked(env, g, m, a, b, Zeros(1024), Run(1024, 1)) == true
    ensures b == a + 512 && b + 2 <= |m.file| && 2 < g.totalSectors && EntryOf(g, m, 2) == Packed(b, 2)
    ensures Decompress(env, g, m.file, Packed(b, 2)) == Some(Run(1024, 1))
  {
    SmallFacts(g);
    OnesSqueezed();
    AlonePair(env, g, m, a, b, Zeros(1024), Run(1024, 1));
    AloneReads(env, g, m, 2, b, Run(1024, 1));
    NextSector(env, g, m, 0);
    assert TwoPacked(env, g, m, a, b, Zeros(1024), Run(1024, 1));
    assert PackedAlone(env, g, m, 0, a, Zeros(1024));
  }

  lemma SameTables(g: Geometry, m: Image, f: seq<byte>)
    requires Shape(g, m) == true && |f| >= |m.file| && |f| % SECTOR == 0 && 2 < g.totalSectors
    ensures Shape(g, m.(file := f)) && EntryOf(g, m.(file := f), 2) == EntryOf(g, m, 2)
  {
  }

  lemma NextSector(env: Env, g: Geometry, m: Image, s: nat)
    requires WellFormed(env, g, m) == true && s < g.totalSectors && EntryOf(g, m, s).Packed?
    ensures RoundUp(EntryOf(g, m, s).off + 1, SECTOR) == EntryOf(g, m, s).off + 512
  {
    SectorEntryKinds(env, g, m, s);
    NextMultiple(EntryOf(g, m, s).off, SECTOR);
  }

  lemma NextMultiple(off: nat, unit: nat)
    requires unit > 1 && off % unit == 0
    ensures RoundUp(off + 1, unit) == off + unit
  {
    var q := Quotient(off, unit);
    QuotientRemainder(off, unit);
    DivModUnique(off + 1, unit, q, 1);
  }

  lemma SpilledByte(env: Env, g: Geometry, f: seq<byte>, a: nat)
    requires env == Library(None) && g.ClusterSize() == 1024 && a + 514 <= |f| && |f| % SECTOR == 0
    ensures var f' := HostWrite(f, a, [3] + Run(512, 7));
            |f| <= |f'| && |f'| % SECTOR == 0 && Decompress(env, g, f', Packed(a + 512, 2)).None?
  {
    var f' := HostWrite(f, a, [3] + Run(512, 7));
    assert f'[a + 512..a + 514] == [7, f[a + 513]];
  }

  /** The driver doing so: the second cluster, which nobody wrote to, cannot be read any more. */
  method SpoilNeighbour() returns (q: Qcow, after: Option<seq<byte>>, ghost m: Image)
    ensures fresh(q) && SmallImage(q.env, q.g, q.Img()) == true && q.Valid() == true && 4 <= q.g.totalSectors
    ensures WellFormed(q.env, q.g, m) == true && ReadsAs(q.env, q.g, m, 2, 2, Some(Run(1024, 1))) == true && after == None
  {
    OnesSqueezed();
    HalfSqueezed();
    ghost var a, b;
    q, a, b := StoreTwo(Zeros(1024), Run(1024, 1));
    m := q.Img();
    SmallFacts(q.g);
    NeighbourSpoiled(q.env, q.g, m, a, b);
    OnesInSecond(q.env, q.g, m, b);
    assert TwoPacked(q.env, q.g, m, a, b, Zeros(1024), Run(1024, 1));
    StoreOver(q, 0, HalfSevens(), a, Zeros(1024));
    after := q.ReadRun(2, 2);
    FailedRun(q.env, q.g, q.Img(), 2, Cache(-1, []), Cache(q.clusterCacheOffset, q.clusterCache), after);
  }

  lemma OnesInSecond(env: Env, g: Geometry, m: Image, b: nat)
    requires SmallImage(env, g, m) == true && 4 <= g.totalSectors && g.InCluster(2) == 0 && g.clusterSectors == 2
    requires EntryOf(g, m, 2) == Packed(b, 2) && b + 2 <= |m.file|
    requires Decompress(env, g, m.file, Packed(b, 2)) == Some(Run(1024, 1))
    ensures ReadsAs(env, g, m, 2, 2, Some(Run(1024, 1))) == true
  {
    CachedRun(env, g, m, 2, 2, Run(1024, 1));
    assert Run(1024, 1)[SECTOR * 0..SECTOR * 0 + SECTOR * 2] == Run(1024, 1);
  }

  /** The driver misplacing an unaligned compressed write: sector 0 was zeroes. */
  method MisplaceUnaligned() returns (q: Qcow)
    ensures fresh(q) && SmallImage(q.env, q.g, q.Img()) == true && q.Valid() == true
    ensures WellFormed(q.env, q.g, EmptyImage()) == true && q.g.ClusterSize() == 1024
    ensures !Exact(q.env, q.g, EmptyImage(), q.Img(), 1, 2, Run(1024, 1))
  {
    q := NewDriver();
    SmallFacts(q.g);
    OnesSqueezed();
    ghost var m := q.Img();
    q.g.L1IndexInRange(1);
    TableForData(q.env, q.g, m, q.g.L1Index(1));
    assert Padded(q.g, 2, Run(1024, 1)) == Run(1024, 1);
    var r := q.WriteCompressed(1, 2, Run(1024, 1));
    FreshPlaced(q.env, q.g, m, q.Img(), q.Valid(), 1, Run(1024, 1));
    UnalignedMisplaced(q.Img());
  }

  /** The driver refusing a write to half a cluster that does not inflate. */
  method RefusePartialWrite() returns (q: Qcow, ok: bool)
    ensures fresh(q) && SmallImage(q.env, q.g, q.Img()) == true && q.Valid() == true && !ok
  {
    ghost var a, b;
    q, a, b := CutOffSecond();
    SmallFacts(q.g);
    HalfRefused(q.env, q.g, q.Img(), b);
    ghost var done;
    ok, done := q.Write(2, 1, Zeros(SECTOR));
  }

  lemma HalfRefused(env: Env, g: Geometry, m: Image, b: nat)
    requires SmallImage(env, g, m) == true && 3 <= g.totalSectors && g.InCluster(2) == 0 && g.clusterSectors == 2
    requires EntryOf(g, m, 2) == Packed(b, 1) && b + 1 <= |m.file| && Decompress(env, g, m.file, Packed(b, 1)).None?
    ensures WriteRefused(env, g, m, 2, 1)
  {
    assert SectorRefused(env, g, m, 2, 1, 2);
  }

  /** The same disk with one sector less, so that its last cluster is short. */
  function OddGeometry(): Geometry
  {
    SmallGeometry().(totalSectors := 127)
  }

  lemma OddImageWellFormed(env: Env)
    requires env.Laws()
    ensures OddGeometry().Valid() && OddGeometry().ClusterSize() == 1024 && OddGeometry().clusterSectors == 2
    ensures Slack(OddGeometry()) == 5120
    ensures WellFormed(env, OddGeometry(), NewImage(OddGeometry(), Zeros(SECTOR))) == true
  {
    SmallGeometryValid();
    OddGeometry().CoversIff();
    NewImageWellFormed(env, OddGeometry(), Zeros(SECTOR));
  }

  lemma OnesThenZeroes()
    ensures var d := Run(SECTOR, 1) + Zeros(SECTOR); |Squeeze(d)| == 1025
  {
    var d := Run(SECTOR, 1) + Zeros(SECTOR);
    assert d[0] == 1 && d[1023] == 0 && Run(1024, 1)[1023] == 1;
    assert (Zeros(512) + d[512..])[0] == 0;
  }

  /** The driver refusing the last sector of a disk, as the padded cluster does not compress. */
  method RefuseShortTail() returns (q: Qcow, r: Status)
    ensures fresh(q) && q.Valid() == true && q.g.totalSectors == 127 && q.g.clusterSectors == 2 && r == Failed
  {
    var env := Library(None);
    LibraryLaws(None);
    OddImageWellFormed(env);
    q := new Qcow(env, OddGeometry(), Zeros(SECTOR), NoClusters(OddGeometry()));
    LevelOneEmpty();
    assert q.Img() == NewImage(OddGeometry(), Zeros(SECTOR));
    OnesThenZeroes();
    assert Padded(q.g, 1, Run(SECTOR, 1)) == Run(SECTOR, 1) + Zeros(SECTOR);
    r := q.WriteCompressed(126, 1, Run(SECTOR, 1));
  }
}
