/** When guest writes are exact: the data and nothing else changes on the flat disk. */
module QcowGuarantees {
  import opened Bytes
  import opened QcowLayout
  import opened QcowState
  import opened QcowImage

  /** Sectors [s, s + n) become `data`; every other sector reads as before. */
  ghost predicate Exact(env: Env, g: Geometry, m: Image, m': Image, s: nat, n: nat, data: seq<byte>)
    requires WellFormed(env, g, m) == true && WellFormed(env, g, m') == true && |data| == SECTOR * n
  {
    forall t :: 0 <= t < g.totalSectors ==>
      GuestSector(env, g, m', t) == if s <= t < s + n then Some(Part(data, t - s)) else GuestSector(env, g, m, t)
  }

  /**
   * What a sector needs to survive a write to another part of its cluster: a plain cluster; zeroes,
   * if the cluster is taken from the backing image; in an encrypted image, a compressed sector that
   * decryption leaves alone.
   */
  ghost predicate Survives(env: Env, g: Geometry, m: Image, t: nat)
    requires WellFormed(env, g, m) == true && t < g.totalSectors
  {
    match EntryOf(g, m, t)
    case Plain(_) => true
    case Free => env.Backing(t) == Some(Zeros(SECTOR))
    case Packed(_, _) => env.crypt ==>
      var was := GuestSector(env, g, m, t); was.Some? ==> env.decrypt(t, was.value) == was.value
  }

  ghost predicate RestSurvives(env: Env, g: Geometry, m: Image, s: nat, n: nat)
    requires WellFormed(env, g, m) == true
  {
    forall t :: 0 <= t < g.totalSectors && Touched(g, s, n, t) && !(s <= t < s + n) ==> Survives(env, g, m, t)
  }

  lemma SurvivesIffResidue(env: Env, g: Geometry, m: Image, t: nat)
    requires WellFormed(env, g, m) == true && t < g.totalSectors
    ensures Survives(env, g, m, t) <==> Residue(env, g, m, t) == GuestSector(env, g, m, t)
  {
    g.L1IndexInRange(t);
  }

  /** A write is exact if and only if the untouched rest of its clusters survives. */
  lemma WriteExactIff(env: Env, g: Geometry, m: Image, m': Image, s: nat, n: nat, data: seq<byte>)
    requires WellFormed(env, g, m) == true && WellFormed(env, g, m') == true && |data| == SECTOR * n
    requires WriteApplied(env, g, m, m', s, n, data) == true
    ensures Exact(env, g, m, m', s, n, data) <==> RestSurvives(env, g, m, s, n)
  {
    forall t | 0 <= t < g.totalSectors && Touched(g, s, n, t) && !(s <= t < s + n)
      ensures GuestSector(env, g, m', t) == GuestSector(env, g, m, t) <==> Survives(env, g, m, t)
    {
      assert SectorWritten(env, g, m, m', s, n, data, t);
      SurvivesIffResidue(env, g, m, t);
    }
    forall t | 0 <= t < g.totalSectors && (!Touched(g, s, n, t) || s <= t < s + n)
      ensures GuestSector(env, g, m', t) == if s <= t < s + n then Some(Part(data, t - s)) else GuestSector(env, g, m, t)
    {
      assert SectorWritten(env, g, m, m', s, n, data, t);
    }
  }

  /** Images as created are always written exactly: no backing image, or clusters of one sector. */
  lemma WriteExactAsCreated(env: Env, g: Geometry, m: Image, m': Image, s: nat, n: nat, data: seq<byte>)
    requires WellFormed(env, g, m) == true && WellFormed(env, g, m') == true && |data| == SECTOR * n
    requires WriteApplied(env, g, m, m', s, n, data) == true
    requires env.backing.None? || g.clusterSectors == 1
    requires !env.crypt
    ensures Exact(env, g, m, m', s, n, data)
  {
    forall t | 0 <= t < g.totalSectors && Touched(g, s, n, t) && !(s <= t < s + n)
      ensures Survives(env, g, m, t)
    {
      if g.clusterSectors == 1 {
        OneSectorClusters(g, s, n, t);
      }
    }
    WriteExactIff(env, g, m, m', s, n, data);
  }

  lemma OneSectorClusters(g: Geometry, s: nat, n: nat, t: nat)
    requires g.Valid() && g.clusterSectors == 1
    ensures Touched(g, s, n, t) <==> s <= t < s + n
  {
    DivModUnique(s, 1, s, 0);
    DivModUnique(t, 1, t, 0);
    if n > 0 {
      DivModUnique(s + n - 1, 1, s + n - 1, 0);
    }
  }

  /** Sector `t` after `data` is stored for the cluster of `s`, and what a request of a cluster from `s` asks for. */
  ghost function StoredView(env: Env, g: Geometry, m: Image, s: nat, data: seq<byte>, t: nat): Option<seq<byte>>
    requires WellFormed(env, g, m) == true && |data| == g.ClusterSize() && t < g.totalSectors
  {
    if g.Cluster(t) == g.Cluster(s) then Some(Part(data, g.InCluster(t))) else GuestSector(env, g, m, t)
  }

  ghost function AskedView(env: Env, g: Geometry, m: Image, s: nat, data: seq<byte>, t: nat): Option<seq<byte>>
    requires WellFormed(env, g, m) == true && |data| == g.ClusterSize() && t < g.totalSectors
  {
    if s <= t < s + g.clusterSectors then Some(Part(data, t - s)) else GuestSector(env, g, m, t)
  }

  /**
   * An unaligned request puts its data at the start of a cluster. Sector `t` is right nevertheless if
   * the data repeats itself there, or the disk already held what was asked for or what was stored.
   */
  ghost predicate Coincides(env: Env, g: Geometry, m: Image, s: nat, data: seq<byte>, t: nat)
    requires WellFormed(env, g, m) == true && |data| == g.ClusterSize() && t < g.totalSectors
  {
    var asked, stored := s <= t < s + g.clusterSectors, g.Cluster(t) == g.Cluster(s);
    && (asked && stored ==> Part(data, g.InCluster(t)) == Part(data, t - s))
    && (asked && !stored ==> GuestSector(env, g, m, t) == Some(Part(data, t - s)))
    && (!asked && stored ==> GuestSector(env, g, m, t) == Some(Part(data, g.InCluster(t))))
  }

  /** When storing one compressed cluster changes exactly the sectors asked for. */
  lemma CompressedWriteExactIff(env: Env, g: Geometry, m: Image, m': Image, s: nat, data: seq<byte>)
    requires WellFormed(env, g, m) == true && WellFormed(env, g, m') == true && s < g.totalSectors
    requires |data| == g.ClusterSize() && ClusterReplaced(env, g, m, m', s, data) == true
    ensures Exact(env, g, m, m', s, g.clusterSectors, data)
            <==> g.InCluster(s) == 0 || forall t :: 0 <= t < g.totalSectors ==> Coincides(env, g, m, s, data, t)
  {
    forall t | 0 <= t < g.totalSectors
      ensures GuestSector(env, g, m', t) == AskedView(env, g, m, s, data, t) <==> Coincides(env, g, m, s, data, t)
      ensures g.InCluster(s) == 0 ==> Coincides(env, g, m, s, data, t)
    {
      assert GuestSector(env, g, m', t) == StoredView(env, g, m, s, data, t);
      if g.InCluster(s) == 0 {
        SectorsOfCluster(g, s, t);
      }
    }
    if forall t :: 0 <= t < g.totalSectors ==> Coincides(env, g, m, s, data, t) {
      forall t | 0 <= t < g.totalSectors
        ensures GuestSector(env, g, m', t) == if s <= t < s + g.clusterSectors then Some(Part(data, t - s))
                                              else GuestSector(env, g, m, t)
      {
        assert Coincides(env, g, m, s, data, t);
      }
    } else {
      var t :| 0 <= t < g.totalSectors && !Coincides(env, g, m, s, data, t);
      assert GuestSector(env, g, m', t) != AskedView(env, g, m, s, data, t);
    }
  }

  /** Alignment decides: it is what makes every cluster of data land where it was asked for. */
  lemma AlignmentIff(env: Env, g: Geometry, m: Image, s: nat)
    requires WellFormed(env, g, m) == true && s < g.totalSectors
    ensures g.InCluster(s) == 0
            <==> forall data, t :: |data| == g.ClusterSize() && 0 <= t < g.totalSectors ==>
                   StoredView(env, g, m, s, data, t) == AskedView(env, g, m, s, data, t)
  {
    if g.InCluster(s) == 0 {
      forall data, t | |data| == g.ClusterSize() && 0 <= t < g.totalSectors
        ensures StoredView(env, g, m, s, data, t) == AskedView(env, g, m, s, data, t)
      {
        SectorsOfCluster(g, s, t);
      }
    } else {
      var data := FirstSectorOnes(g.ClusterSize());
      assert Part(data, 0)[0] == 1 && Part(data, g.InCluster(s))[0] == 0;
      assert StoredView(env, g, m, s, data, s) != AskedView(env, g, m, s, data, s);
    }
  }

  function FirstSectorOnes(n: nat): (r: seq<byte>)
    ensures |r| == n
  {
    seq(n, k => if k < SECTOR then 1 else 0)
  }

  lemma SectorsOfCluster(g: Geometry, s: nat, t: nat)
    requires g.Valid() && g.InCluster(s) == 0
    ensures g.Cluster(t) == g.Cluster(s) <==> s <= t < s + g.clusterSectors
    ensures s <= t < s + g.clusterSectors ==> g.InCluster(t) == t - s
  {
    if s <= t < s + g.clusterSectors {
      g.ClusterRun(s, t - s);
    } else if g.Cluster(t) == g.Cluster(s) {
      ClusterOffsets(g, s, t);
    }
  }

  /**
   * A new compressed cluster goes past everything in the file, and its table word says so, exactly
   * when the file still ends below the offset limit; from there on the data lands inside the file.
   */
  lemma CompressedPlacementIff(g: Geometry, end: nat, size: nat)
    requires g.Valid() && size < g.ClusterSize() && end < TWO63
    ensures var w := Pack(g, end, size);
            && (end < g.offsetLimit <==> end <= CompressedOffset(g, w))
            && (end < g.offsetLimit <==> CompressedOffset(g, w) == end && CompressedSize(g, w) == size)
            && (end < g.offsetLimit ==> DecodeEntry(g, w) == Packed(end, size))
  {
    PackRoundTrip(g, end, size);
    OffsetOfPacked(g, end, size);
  }

  lemma OffsetOfPacked(g: Geometry, end: nat, size: nat)
    requires g.Valid()
    ensures CompressedOffset(g, Pack(g, end, size)) < g.offsetLimit
  {
  }

  /** The stored form of a plain cluster at `off` once `z` has been written over its start. */
  function Patched(g: Geometry, f: seq<byte>, off: nat, z: seq<byte>): (r: seq<byte>)
    requires |z| <= g.ClusterSize() && off + g.ClusterSize() <= |f|
    ensures |r| == g.ClusterSize()
  {
    z + f[off + |z|..off + g.ClusterSize()]
  }

  /** The stored form `raw` of the cluster at `s` decodes to `data` at sector `t`. */
  predicate Decodes(env: Env, s: nat, raw: seq<byte>, data: seq<byte>, t: nat)
    requires s <= t && SECTOR * (t - s) + SECTOR <= |raw| && |raw| == |data|
  {
    env.Decode(t, Part(raw, t - s)) == Part(data, t - s)
  }

  /** It decodes to the data at every sector of the cluster. */
  predicate DecodesTo(env: Env, g: Geometry, s: nat, raw: seq<byte>, data: seq<byte>)
    requires |raw| == g.ClusterSize() == |data|
  {
    forall t :: s <= t < s + g.clusterSectors && t < g.totalSectors ==> Decodes(env, s, raw, data, t)
  }

  /**
   * Compressing over an allocated plain cluster stores the deflated bytes as if they were the data,
   * in front of what is left of the old cluster. The write is exact only if that decodes to the data.
   */
  lemma CompressedOverPlainIff(env: Env, g: Geometry, m: Image, m': Image, s: nat, data: seq<byte>)
    requires WellFormed(env, g, m) == true && s < g.totalSectors && g.InCluster(s) == 0
    requires |data| == g.ClusterSize() && Compressible(env, g, data)
    requires EntryOf(g, m, s).Plain? && EntryOf(g, m, s).off < g.offsetLimit
    requires Overwritten(g, m, m', s, env.deflate(data)) == true
    ensures WellFormed(env, g, m') == true && EntryOf(g, m, s).off + g.ClusterSize() <= |m.file|
    ensures Exact(env, g, m, m', s, g.clusterSectors, data)
            <==> DecodesTo(env, g, s, Patched(g, m.file, EntryOf(g, m, s).off, env.deflate(data)), data)
  {
    OverPlainKeeps(env, g, m, m', s, data);
    var raw := Patched(g, m.file, EntryOf(g, m, s).off, env.deflate(data));
    forall t | 0 <= t < g.totalSectors
      ensures s <= t < s + g.clusterSectors ==>
                (GuestSector(env, g, m', t) == Some(Part(data, t - s)) <==> Decodes(env, s, raw, data, t))
      ensures !(s <= t < s + g.clusterSectors) ==> GuestSector(env, g, m', t) == GuestSector(env, g, m, t)
    {
      OverPlainSector(env, g, m, m', s, data, t);
    }
    ExactByData(env, g, m, m', s, raw, data);
  }

  lemma ExactByData(env: Env, g: Geometry, m: Image, m': Image, s: nat, raw: seq<byte>, data: seq<byte>)
    requires WellFormed(env, g, m) == true && WellFormed(env, g, m') == true
    requires |data| == g.ClusterSize() && |raw| == g.ClusterSize()
    requires forall t :: 0 <= t < g.totalSectors && s <= t < s + g.clusterSectors ==>
               (GuestSector(env, g, m', t) == Some(Part(data, t - s)) <==> Decodes(env, s, raw, data, t))
    requires forall t :: 0 <= t < g.totalSectors && !(s <= t < s + g.clusterSectors) ==>
               GuestSector(env, g, m', t) == GuestSector(env, g, m, t)
    ensures Exact(env, g, m, m', s, g.clusterSectors, data)
            <==> DecodesTo(env, g, s, raw, data)
  {
    if Exact(env, g, m, m', s, g.clusterSectors, data) {
      forall t | s <= t < s + g.clusterSectors && t < g.totalSectors
        ensures Decodes(env, s, raw, data, t)
      {
        assert GuestSector(env, g, m', t) == Some(Part(data, t - s));
      }
    }
  }

  lemma OverPlainKeeps(env: Env, g: Geometry, m: Image, m': Image, s: nat, data: seq<byte>)
    requires WellFormed(env, g, m) == true && s < g.totalSectors
    requires |data| == g.ClusterSize() && Compressible(env, g, data)
    requires EntryOf(g, m, s).Plain? && EntryOf(g, m, s).off < g.offsetLimit
    requires Overwritten(g, m, m', s, env.deflate(data)) == true
    ensures EntryOf(g, m, s).off + g.ClusterSize() <= |m.file|
    ensures m' == m.(file := HostWrite(m.file, EntryOf(g, m, s).off, env.deflate(data)))
    ensures WellFormed(env, g, m') == true && Keeps(g, m, m', g.L1Index(s), g.L2Index(s)) == true
  {
    var e, z := EntryOf(g, m, s), env.deflate(data);
    SectorEntryKinds(env, g, m, s);
    SmallMod(e.off, g.offsetLimit);
    PlainWriteKeeps(env, g, m, m', g.L1Index(s), g.L2Index(s), e.off, z);
  }

  lemma OverPlainSector(env: Env, g: Geometry, m: Image, m': Image, s: nat, data: seq<byte>, t: nat)
    requires WellFormed(env, g, m) == true && WellFormed(env, g, m') == true
    requires s < g.totalSectors && t < g.totalSectors && g.InCluster(s) == 0
    requires |data| == g.ClusterSize() && Compressible(env, g, data) && EntryOf(g, m, s).Plain?
    requires EntryOf(g, m, s).off + g.ClusterSize() <= |m.file|
    requires m' == m.(file := HostWrite(m.file, EntryOf(g, m, s).off, env.deflate(data)))
    requires Keeps(g, m, m', g.L1Index(s), g.L2Index(s)) == true
    ensures var raw := Patched(g, m.file, EntryOf(g, m, s).off, env.deflate(data));
            GuestSector(env, g, m', t) == if s <= t < s + g.clusterSectors then Some(env.Decode(t, Part(raw, t - s)))
                                          else GuestSector(env, g, m, t)
  {
    SectorsOfCluster(g, s, t);
    IndexesOfCluster(g, s, t);
    if s <= t < s + g.clusterSectors {
      PatchedSector(env, g, m.file, EntryOf(g, m, s).off, env.deflate(data), t);
    } else {
      KeepsSector(env, g, m, m', g.L1Index(s), g.L2Index(s), t);
    }
  }

  lemma PatchedSector(env: Env, g: Geometry, f: seq<byte>, off: nat, z: seq<byte>, t: nat)
    requires g.Valid() && |z| <= g.ClusterSize() && off + g.ClusterSize() <= |f|
    ensures var f' := HostWrite(f, off, z);
            && off + g.ClusterSize() <= |f'|
            && EntrySector(env, g, f', Plain(off), t)
               == Some(env.Decode(t, Part(Patched(g, f, off, z), g.InCluster(t))))
  {
    PatchedBytes(f, off, z, g.ClusterSize());
    SliceOfSlice(HostWrite(f, off, z), off, g.ClusterSize(), SECTOR * g.InCluster(t), SECTOR);
  }

  lemma PatchedBytes(f: seq<byte>, off: nat, z: seq<byte>, n: nat)
    requires |z| <= n && off + n <= |f|
    ensures var f' := HostWrite(f, off, z); off + n <= |f'| && f'[off..off + n] == z + f[off + |z|..off + n]
  {
  }

  /**
   * A plain cluster at or above the offset limit is not written over: the deflated bytes land at
   * its offset without the upper bits, somewhere before it. The sectors read back as the data exactly
   * when they held it before; others are damaged unless they held the same bytes.
   */
  lemma CompressedOverFarPlainIff(env: Env, g: Geometry, m: Image, m': Image, s: nat, data: seq<byte>)
    requires WellFormed(env, g, m) == true && s < g.totalSectors && g.InCluster(s) == 0
    requires |data| == g.ClusterSize() && Compressible(env, g, data)
    requires EntryOf(g, m, s).Plain? && g.offsetLimit <= EntryOf(g, m, s).off
    requires Overwritten(g, m, m', s, env.deflate(data)) == true
    ensures var at := EntryOf(g, m, s).off % g.offsetLimit;
            m' == m.(file := HostWrite(m.file, at, env.deflate(data))) && Shape(g, m')
    ensures EntryOf(g, m, s).off + g.ClusterSize() <= |m'.file|
    ensures (forall t :: s <= t < s + g.clusterSectors && t < g.totalSectors ==>
               EntrySector(env, g, m'.file, EntryOf(g, m, s), t) == Some(Part(data, t - s)))
            <==> forall t :: s <= t < s + g.clusterSectors && t < g.totalSectors ==>
                   GuestSector(env, g, m, t) == Some(Part(data, t - s))
    ensures var at, z, i0, j0 := EntryOf(g, m, s).off % g.offsetLimit, env.deflate(data), g.L1Index(s), g.L2Index(s);
            Keeps(g, m, m', i0, j0)
            <==> forall i, j :: 0 <= i < g.l1Size && 0 <= j < g.l2Size && (i != i0 || j != j0) && !m.clusters[i][j].Free? ==>
                   SpillAgrees(m.file, at, 0, z, Start(m.clusters[i][j]), Len(g, m.clusters[i][j]))
  {
    var e, z, i0, j0 := EntryOf(g, m, s), env.deflate(data), g.L1Index(s), g.L2Index(s);
    var at := e.off % g.offsetLimit;
    SectorEntryKinds(env, g, m, s);
    FarOffset(g, e.off);
    WriteChangesOnly(m.file, at, z);
    HostWriteFrame(m.file, at, z, e.off, g.ClusterSize());
    forall t | s <= t < s + g.clusterSectors && t < g.totalSectors
      ensures EntrySector(env, g, m'.file, e, t) == GuestSector(env, g, m, t)
    {
      SectorsOfCluster(g, s, t);
      IndexesOfCluster(g, s, t);
      EntrySectorSame(env, g, m.file, m'.file, e, t);
    }
    forall i, j | 0 <= i < g.l1Size && 0 <= j < g.l2Size && (i != i0 || j != j0) && !m.clusters[i][j].Free?
      ensures SameOn(m.file, m'.file, Start(m.clusters[i][j]), Len(g, m.clusters[i][j]))
              <==> SpillAgrees(m.file, at, 0, z, Start(m.clusters[i][j]), Len(g, m.clusters[i][j]))
    {
      assert EntryOk(g, m.clusters[i][j], |m.file|);
      SpillOn(m.file, at, 0, z, Start(m.clusters[i][j]), Len(g, m.clusters[i][j]));
    }
  }

  lemma FarOffset(g: Geometry, off: nat)
    requires g.Valid() && g.offsetLimit <= off
    ensures off % g.offsetLimit + g.ClusterSize() <= off
  {
    LimitHoldsCluster(g);
    RemainderBelow(off, g.offsetLimit, g.ClusterSize());
  }

  lemma LimitHoldsCluster(g: Geometry)
    requires g.Valid()
    ensures g.ClusterSize() <= g.offsetLimit
  {
    var b := g.clusterBits;
    FieldWidths(g);
    PowersMonotone(b, 63 - b);
  }

  lemma PowersMonotone(a: nat, b: nat)
    requires a <= b
    ensures Pow2(a) <= Pow2(b)
  {
    Pow2Add(a, b - a);
    ProductAtLeast(Pow2(b - a), Pow2(a));
  }

  lemma RemainderBelow(off: nat, limit: nat, n: nat)
    requires 0 < limit <= off && n <= limit
    ensures off % limit + n <= off
  {
    var q := Quotient(off, limit);
    QuotientRemainder(off, limit);
    if q == 0 {
      assert false;
    }
    ProductAtLeast(q, limit);
  }

  /** Unencrypted: the data must begin with its own deflated form and its rest must already be there. */
  lemma CompressedOverPlainUnencrypted(env: Env, g: Geometry, m: Image, m': Image, s: nat, data: seq<byte>)
    requires WellFormed(env, g, m) == true && s + g.clusterSectors <= g.totalSectors && g.InCluster(s) == 0
    requires !env.crypt && |data| == g.ClusterSize() && Compressible(env, g, data) && s < g.totalSectors
    requires EntryOf(g, m, s).Plain? && EntryOf(g, m, s).off < g.offsetLimit
    requires Overwritten(g, m, m', s, env.deflate(data)) == true
    ensures WellFormed(env, g, m') == true && EntryOf(g, m, s).off + g.ClusterSize() <= |m.file|
    ensures var z, off := env.deflate(data), EntryOf(g, m, s).off;
            Exact(env, g, m, m', s, g.clusterSectors, data)
            == (z <= data && m.file[off + |z|..off + g.ClusterSize()] == data[|z|..])
  {
    CompressedOverPlainIff(env, g, m, m', s, data);
    PatchedUnencrypted(env, g, m.file, EntryOf(g, m, s).off, env.deflate(data), s, data);
  }

  lemma PatchedUnencrypted(env: Env, g: Geometry, f: seq<byte>, off: nat, z: seq<byte>, s: nat, data: seq<byte>)
    requires !env.crypt && |data| == g.ClusterSize() && |z| <= g.ClusterSize() && off + g.ClusterSize() <= |f|
    requires s + g.clusterSectors <= g.totalSectors
    ensures DecodesTo(env, g, s, Patched(g, f, off, z), data) == (z <= data && f[off + |z|..off + g.ClusterSize()] == data[|z|..])
  {
    DecodesUnencrypted(env, s, Patched(g, f, off, z), data, g.clusterSectors, g.totalSectors);
    PrefixSplit(z, f[off + |z|..off + g.ClusterSize()], data);
  }

  lemma DecodesUnencrypted(env: Env, s: nat, raw: seq<byte>, data: seq<byte>, n: nat, total: nat)
    requires !env.crypt && |raw| == SECTOR * n && |data| == SECTOR * n && s + n <= total
    ensures raw == data <==> forall t :: s <= t < s + n && t < total ==> Decodes(env, s, raw, data, t)
  {
    if forall t :: s <= t < s + n && t < total ==> Decodes(env, s, raw, data, t) {
      forall u | 0 <= u < n
        ensures Part(raw, u) == Part(data, u)
      {
        assert Decodes(env, s, raw, data, s + u);
      }
      SamePartsSame(raw, data, n);
    }
  }

  lemma PrefixSplit(z: seq<byte>, rest: seq<byte>, data: seq<byte>)
    requires |z| + |rest| == |data|
    ensures z + rest == data <==> z <= data && rest == data[|z|..]
  {
    assert (z + rest)[..|z|] == z && (z + rest)[|z|..] == rest;
    assert data == data[..|z|] + data[|z|..];
  }

  lemma SamePartsSame(a: seq<byte>, b: seq<byte>, n: nat)
    requires |a| == SECTOR * n && |b| == SECTOR * n
    ensures a == b <==> forall u :: 0 <= u < n ==> Part(a, u) == Part(b, u)
  {
    if forall u :: 0 <= u < n ==> Part(a, u) == Part(b, u) {
      forall k | 0 <= k < |a|
        ensures a[k] == b[k]
      {
        var u := k / SECTOR;
        assert Part(a, u)[k - SECTOR * u] == Part(b, u)[k - SECTOR * u];
      }
    }
  }

  /**
   * Compressing over a compressed cluster keeps its old size field and its old cached copy. The data
   * reads back exactly when the cache holds no older copy and the bytes that size field covers
   * inflate to the data, which they do if the new stream is no longer than the old one.
   */
  lemma CompressedOverPackedIff(env: Env, g: Geometry, m: Image, m': Image, s: nat, data: seq<byte>, key: int, cache: seq<byte>)
    requires WellFormed(env, g, m) == true && s < g.totalSectors && ClusterCached(env, g, m, key, cache) == true
    requires |data| == g.ClusterSize() && Compressible(env, g, data) && EntryOf(g, m, s).Packed?
    requires Overwritten(g, m, m', s, env.deflate(data)) == true
    ensures var e, z := EntryOf(g, m, s), env.deflate(data);
            && e.off + e.size <= |m.file| && e.off + e.size <= |m'.file|
            && (Served(env, g, m'.file, e, key, cache) == Some(data)
                <==> if key == e.off then Decompress(env, g, m.file, e) == Some(data)
                     else |z| <= e.size || Inflate(env, g.ClusterSize(), z[..e.size]) == Some(data))
  {
    var e := EntryOf(g, m, s);
    PackedAt(env, g, m, m', s, env.deflate(data));
    RewrittenPacked(env, g, m.file, e, data);
    if key == e.off {
      assert Decompress(env, g, m.file, m.clusters[g.L1Index(s)][g.L2Index(s)]) == Some(cache);
    }
  }

  /** Where the data of an existing compressed cluster is written. */
  lemma PackedAt(env: Env, g: Geometry, m: Image, m': Image, s: nat, z: seq<byte>)
    requires WellFormed(env, g, m) == true && s < g.totalSectors && EntryOf(g, m, s).Packed?
    requires Overwritten(g, m, m', s, z) == true
    ensures g.L1Index(s) < g.l1Size && EntryOf(g, m, s) == m.clusters[g.L1Index(s)][g.L2Index(s)]
    ensures var e := EntryOf(g, m, s);
            && 0 < e.size && e.off + e.size <= |m.file| <= |m'.file|
            && |m.file| % SECTOR == 0 && |m'.file| % SECTOR == 0
            && m' == m.(file := HostWrite(m.file, e.off, z))
  {
    var e := EntryOf(g, m, s);
    g.L1IndexInRange(s);
    assert EntryOk(g, m.clusters[g.L1Index(s)][g.L2Index(s)], |m.file|);
    FieldWidths(g);
    ProductAtLeast(g.ClusterSize(), g.offsetLimit);
    PackRoundTrip(g, e.off, e.size);
    WriteChangesOnly(m.file, e.off, z);
  }

  lemma RewrittenPacked(env: Env, g: Geometry, f: seq<byte>, e: Entry, data: seq<byte>)
    requires env.Laws() && g.Valid() && e.Packed? && e.off + e.size <= |f| && |f| % SECTOR == 0
    requires |data| == g.ClusterSize()
    ensures var z, f' := env.deflate(data), HostWrite(f, e.off, env.deflate(data));
            && e.off + e.size <= |f'|
            && (Decompress(env, g, f', e) == Some(data)
                <==> |z| <= e.size || Inflate(env, g.ClusterSize(), z[..e.size]) == Some(data))
  {
    var z := env.deflate(data);
    if |z| <= e.size {
      PackedReads(env, g, f, e, data);
    } else {
      HostWriteData(f, e.off, z);
      SliceOfSlice(HostWrite(f, e.off, z), e.off, |z|, 0, e.size);
    }
  }

  /** The bytes written past the old end of the cluster at `off` are those [a, a + n) already held. */
  ghost predicate SpillAgrees(f: seq<byte>, off: nat, size: nat, z: seq<byte>, a: nat, n: nat)
  {
    forall k :: off + size <= k < off + |z| && a <= k < a + n && k < |f| ==> f[k] == z[k - off]
  }

  /** A stream longer than the one it replaces damages its neighbours unless they held the same bytes. */
  lemma CompressedSpillIff(env: Env, g: Geometry, m: Image, m': Image, s: nat, z: seq<byte>)
    requires WellFormed(env, g, m) == true && s < g.totalSectors && EntryOf(g, m, s).Packed?
    requires Overwritten(g, m, m', s, z) == true
    ensures Shape(g, m') && g.L1Index(s) < g.l1Size
    ensures var e, i0, j0 := EntryOf(g, m, s), g.L1Index(s), g.L2Index(s);
            Keeps(g, m, m', i0, j0)
            <==> forall i, j :: 0 <= i < g.l1Size && 0 <= j < g.l2Size && (i != i0 || j != j0) && !m.clusters[i][j].Free? ==>
                   SpillAgrees(m.file, e.off, e.size, z, Start(m.clusters[i][j]), Len(g, m.clusters[i][j]))
    ensures forall i :: 0 <= i < g.l1Size && m.l1[i] != 0 ==>
              (SameOn(m.file, m'.file, m.l1[i], TableBytes(g))
               <==> SpillAgrees(m.file, EntryOf(g, m, s).off, EntryOf(g, m, s).size, z, m.l1[i], TableBytes(g)))
  {
    var e, i0, j0 := EntryOf(g, m, s), g.L1Index(s), g.L2Index(s);
    PackedAt(env, g, m, m', s, z);
    assert EntryApartFromTables(g, m, m.clusters[i0][j0]);
    forall i, j | 0 <= i < g.l1Size && 0 <= j < g.l2Size && (i != i0 || j != j0) && !m.clusters[i][j].Free?
      ensures SameOn(m.file, m'.file, Start(m.clusters[i][j]), Len(g, m.clusters[i][j]))
              <==> SpillAgrees(m.file, e.off, e.size, z, Start(m.clusters[i][j]), Len(g, m.clusters[i][j]))
    {
      assert EntryOk(g, m.clusters[i][j], |m.file|);
      assert EntriesApart(g, m.clusters[i0][j0], m.clusters[i][j]);
      SpillOn(m.file, e.off, e.size, z, Start(m.clusters[i][j]), Len(g, m.clusters[i][j]));
    }
    forall i | 0 <= i < g.l1Size && m.l1[i] != 0
      ensures SameOn(m.file, m'.file, m.l1[i], TableBytes(g)) <==> SpillAgrees(m.file, e.off, e.size, z, m.l1[i], TableBytes(g))
    {
      assert TableStored(g, m, i, |m.file|);
      SpillOn(m.file, e.off, e.size, z, m.l1[i], TableBytes(g));
    }
  }

  lemma SpillOn(f: seq<byte>, off: nat, size: nat, z: seq<byte>, a: nat, n: nat)
    requires a + n <= |f| && (size == 0 || Apart(off, size, a, n))
    ensures SameOn(f, HostWrite(f, off, z), a, n) <==> SpillAgrees(f, off, size, z, a, n)
  {
    var f' := HostWrite(f, off, z);
    if SameOn(f, f', a, n) {
      forall k | off + size <= k < off + |z| && a <= k < a + n
        ensures f[k] == z[k - off]
      {
        assert f[a..a + n][k - a] == f'[a..a + n][k - a];
      }
    } else {
      var k :| a <= k < a + n && f'[k] != f[k];
    }
  }

  /**
   * A compressed cluster that does not inflate uses the buffer of the one-cluster cache, whose key
   * stays as it was. The cache is right afterwards exactly when its key names no compressed cluster,
   * or the buffer has come out of it as it was.
   */
  lemma FailedInflateIff(env: Env, g: Geometry, m: Image, s: nat, was: Cache)
    requires WellFormed(env, g, m) == true && s < g.totalSectors && EntryOf(g, m, s).Packed?
    requires ClusterCached(env, g, m, was.key, was.data) == true
    requires GuestSector(env, g, m, s).None?
    ensures var e := EntryOf(g, m, s);
            e.off + e.size <= |m.file| && Served(env, g, m.file, e, was.key, was.data).None?
    ensures var after := CacheAfter(env, g, m.file, EntryOf(g, m, s), was.key, was.data);
            ClusterCached(env, g, m, after.key, after.data) <==> KeyFree(m.clusters, was.key) || after.data == was.data
  {
    SectorEntryKinds(env, g, m, s);
    var e, i, j := EntryOf(g, m, s), g.L1Index(s), g.L2Index(s);
    assert ClusterCached(env, g, m, was.key, was.data);
    assert m.clusters[i][j].off != was.key;
    BufferUsedIff(env, g, m, was, CacheAfter(env, g, m.file, e, was.key, was.data).data);
  }

  lemma BufferUsedIff(env: Env, g: Geometry, m: Image, was: Cache, used: seq<byte>)
    requires WellFormed(env, g, m) == true && ClusterCached(env, g, m, was.key, was.data) == true
    ensures ClusterCached(env, g, m, was.key, used) <==> KeyFree(m.clusters, was.key) || used == was.data
  {
    assert ClusterCached(env, g, m, was.key, was.data);
    if ClusterCached(env, g, m, was.key, used) && !KeyFree(m.clusters, was.key) {
      var i, j :| 0 <= i < |m.clusters| && 0 <= j < |m.clusters[i]| && m.clusters[i][j].Packed? && m.clusters[i][j].off == was.key;
      assert Some(used) == Decompress(env, g, m.file, m.clusters[i][j]) == Some(was.data);
    }
  }

  /** Whatever inflating may leave in the buffer, only a key without a cluster makes the cache safe. */
  lemma AnyLeftoverIff(env: Env, g: Geometry, m: Image, was: Cache)
    requires WellFormed(env, g, m) == true && ClusterCached(env, g, m, was.key, was.data) == true
    ensures (forall used :: |used| == g.ClusterSize() ==> ClusterCached(env, g, m, was.key, used)) <==> KeyFree(m.clusters, was.key)
  {
    var zeroes, others := Zeros(g.ClusterSize()), FirstSectorOnes(g.ClusterSize());
    assert zeroes[0] != others[0];
    BufferUsedIff(env, g, m, was, zeroes);
    BufferUsedIff(env, g, m, was, others);
    forall used | |used| == g.ClusterSize() && KeyFree(m.clusters, was.key)
      ensures ClusterCached(env, g, m, was.key, used)
    {
      BufferUsedIff(env, g, m, was, used);
    }
  }

  /**
   * A write is refused exactly when one of its sectors lies in a compressed cluster that is not
   * written as a whole and cannot be read. A request of whole clusters is never refused.
   */
  lemma WholeClustersNotRefused(env: Env, g: Geometry, m: Image, s: nat, n: nat)
    requires WellFormed(env, g, m) == true && s + n <= g.totalSectors
    requires g.InCluster(s) == 0 && (n == 0 || g.InCluster(s + n - 1) == g.clusterSectors - 1)
    ensures !WriteRefused(env, g, m, s, n)
  {
    forall k | s <= k < s + n
      ensures Covered(g, s, n, k)
    {
      CoveredInside(g, s, n, k);
    }
  }

  lemma CoveredInside(g: Geometry, s: nat, n: nat, k: nat)
    requires g.Valid() == true && s <= k < s + n
    requires g.InCluster(s) == 0 && g.InCluster(s + n - 1) == g.clusterSectors - 1
    ensures Covered(g, s, n, k)
  {
    StartsInOrder(g, s, k);
    StartsInOrder(g, k, s + n - 1);
  }

  /** The clusters of two sectors start in the order of the sectors. */
  lemma StartsInOrder(g: Geometry, a: nat, b: nat)
    requires g.Valid() && a <= b
    ensures a - g.InCluster(a) <= b - g.InCluster(b)
  {
    ClusterMonotone(g, a, b);
    QuotientRemainder(a, g.clusterSectors);
    QuotientRemainder(b, g.clusterSectors);
    MulMonotone(g.Cluster(a), g.Cluster(b), g.clusterSectors);
  }

  /**
   * The short last cluster of a disk is stored exactly when its data, completed with zeroes,
   * compresses: a normal write of the completed cluster would run past the end of the disk.
   */
  lemma ShortTailIff(env: Env, g: Geometry, m: Image, m': Image, valid: bool, s: nat, n: nat, buf: seq<byte>, r: Status)
    requires WellFormed(env, g, m) == true && s + n == g.totalSectors && 0 < n < g.clusterSectors && |buf| == SECTOR * n
    requires valid ==> WellFormed(env, g, m') == true
    requires ClusterOutcome(env, g, m, m', valid, s, Padded(g, n, buf), r) == true
    ensures r == Done <==> Compressible(env, g, Padded(g, n, buf))
    ensures r != Done ==> valid && m' == m
  {
  }
}
