/** The qcow driver: allocation, the two caches, and the guest requests. */
module QcowImage {
  import opened Bytes
  import opened QcowLayout
  import opened QcowState

  const L2_CACHE_SIZE := 16
  const MAX_HITS := 0xffff_ffff

  datatype Allocate = Never | AllocatePlain | AllocateCompressed(size: nat)

  /** How much one request for one cluster can add to the file. */
  function Slack(g: Geometry): nat { TableBytes(g) + 3 * g.ClusterSize() + 3 * SECTOR }

  /** A table of 64-bit words encodes a row of the cluster map. */
  ghost predicate TableHolds(g: Geometry, table: seq<nat>, row: seq<Entry>)
  {
    |table| == |row| && forall j :: 0 <= j < |row| ==> table[j] == EncodeEntry(g, row[j])
  }

  /** Non-empty slots have distinct keys and hold the table of their key. */
  ghost predicate TablesCached(g: Geometry, m: Image, offsets: seq<nat>, tables: seq<seq<nat>>)
    requires Shape(g, m) == true
  {
    && |offsets| == L2_CACHE_SIZE && |tables| == L2_CACHE_SIZE
    && (forall c :: 0 <= c < L2_CACHE_SIZE && offsets[c] != 0 ==> offsets[c] in m.l1)
    && (forall c, c' :: 0 <= c < c' < L2_CACHE_SIZE && offsets[c] != 0 ==> offsets[c] != offsets[c'])
    && (forall c, i :: 0 <= c < L2_CACHE_SIZE && 0 <= i < g.l1Size && offsets[c] != 0 && m.l1[i] == offsets[c] ==>
          TableHolds(g, tables[c], m.clusters[i]))
  }

  ghost predicate CountsOk(counts: seq<nat>)
  {
    |counts| == L2_CACHE_SIZE && forall c :: 0 <= c < L2_CACHE_SIZE ==> counts[c] < MAX_HITS
  }

  /** The one-cluster cache, when its key names a compressed cluster, holds what that decodes to. */
  ghost predicate ClusterCached(env: Env, g: Geometry, m: Image, key: int, data: seq<byte>)
    requires Shape(g, m) == true
  {
    forall i, j :: 0 <= i < g.l1Size && 0 <= j < g.l2Size && m.clusters[i][j].Packed? && m.clusters[i][j].off == key ==>
      && m.clusters[i][j].off + m.clusters[i][j].size <= |m.file|
      && Decompress(env, g, m.file, m.clusters[i][j]) == Some(data)
  }

  /** The key of the one-cluster cache names no compressed cluster. */
  ghost predicate KeyFree(clusters: seq<seq<Entry>>, key: int)
  {
    forall i, j :: 0 <= i < |clusters| && 0 <= j < |clusters[i]| && clusters[i][j].Packed? ==> clusters[i][j].off != key
  }

  /** The cache is empty, or its key lies in the file and its buffer holds a cluster. */
  predicate KeyOk(g: Geometry, f: seq<byte>, key: int, cache: seq<byte>)
  {
    key == -1 || (0 <= key < |f| && |cache| == g.ClusterSize())
  }

  /** The hit counters after a hit on slot `c`: all are halved before one would wrap. */
  function Bump(counts: seq<nat>, c: nat): seq<nat>
    requires c < |counts|
  {
    var bumped := counts[c := counts[c] + 1];
    if bumped[c] == MAX_HITS then Halved(bumped) else bumped
  }

  function Halved(counts: seq<nat>): seq<nat>
  {
    seq(|counts|, c requires 0 <= c < |counts| => counts[c] / 2)
  }

  /** What is left of a sector once another part of its cluster, with entry `e`, has been written. */
  function EntryResidue(env: Env, g: Geometry, f: seq<byte>, e: Entry, t: nat): Option<seq<byte>>
    requires g.Valid() && (!e.Free? ==> Start(e) + Len(g, e) <= |f|)
  {
    if e.Free? then Some(Zeros(SECTOR))
    else
      var was := EntrySector(env, g, f, e, t);
      if e.Packed? && was.Some? then Some(env.Decode(t, was.value)) else was
  }

  function Residue(env: Env, g: Geometry, m: Image, t: nat): Option<seq<byte>>
    requires WellFormed(env, g, m) == true && t < g.totalSectors
  {
    g.L1IndexInRange(t);
    assert EntryOk(g, m.clusters[g.L1Index(t)][g.L2Index(t)], |m.file|);
    EntryResidue(env, g, m.file, EntryOf(g, m, t), t)
  }

  lemma IndexesOfCluster(g: Geometry, s: nat, t: nat)
    requires g.Valid()
    ensures (g.L1Index(t) == g.L1Index(s) && g.L2Index(t) == g.L2Index(s)) <==> g.Cluster(t) == g.Cluster(s)
  {
    if g.L1Index(t) == g.L1Index(s) && g.L2Index(t) == g.L2Index(s) {
      g.ClusterIndexesInjective(g.Cluster(s), g.Cluster(t));
    }
  }

  lemma WriteChangesOnly(f: seq<byte>, off: nat, data: seq<byte>)
    requires |f| % SECTOR == 0
    ensures ChangedOnly(f, HostWrite(f, off, data), off, |data|)
    ensures off + |data| <= |f| ==> |HostWrite(f, off, data)| == |f|
    ensures |HostWrite(f, off, data)| < Max(|f|, off + |data|) + SECTOR
    ensures off >= |f| ==> f <= HostWrite(f, off, data)
  {
    HostWriteLength(f, off, data);
  }

  /** `n` 64-bit words from `off`; bytes past the end of the file read as zeroes. */
  function ReadWords(f: seq<byte>, off: nat, n: nat): (r: seq<nat>)
    ensures |r| == n
    ensures off + 8 * n <= |f| ==> forall i :: 0 <= i < n ==> r[i] == Word(f, off + 8 * i)
  {
    var padded := if off + 8 * n <= |f| then f else f + Zeros(off + 8 * n - |f|);
    seq(n, i requires 0 <= i < n => Word(padded, off + 8 * i))
  }

  /** The in-memory form of the L2 table at `off`. */
  function DecodeTable(g: Geometry, f: seq<byte>, off: nat): seq<nat>
    requires off + TableBytes(g) <= |f|
  {
    seq(g.l2Size, j requires 0 <= j < g.l2Size => Word(f, off + 8 * j))
  }

  /** The bytes a newly allocated plain cluster must hold outside the part being written. */
  function InitialRaw(env: Env, g: Geometry, f: seq<byte>, k: nat, e: Entry, x: nat): seq<byte>
    requires g.Valid() && !e.Plain?
    requires e.Packed? ==> e.off + e.size <= |f| && Decompress(env, g, f, e).Some?
    requires x < g.clusterSectors
  {
    if e.Free? then env.Encode(k - g.InCluster(k) + x, Zeros(SECTOR))
    else Decompress(env, g, f, e).value[SECTOR * x..SECTOR * x + SECTOR]
  }

  ghost predicate InitialRawDefined(env: Env, g: Geometry, f: seq<byte>, e: Entry)
  {
    g.Valid() && !e.Plain? && (e.Packed? ==> e.off + e.size <= |f| && Decompress(env, g, f, e).Some?)
  }

  lemma AlignedToSector(g: Geometry, off: nat)
    requires g.Valid() && off % g.ClusterSize() == 0
    ensures off % SECTOR == 0
  {
    var q, c := Quotient(off, g.ClusterSize()), g.clusterSectors;
    QuotientRemainder(off, g.ClusterSize());
    MulSwap(q, SECTOR, c);
  }

  /** A file made longer by zeroes up to the end of a new cluster. */
  lemma LongerByCluster(g: Geometry, f: seq<byte>, off: nat)
    requires g.Valid() && 0 < |f| && |f| % SECTOR == 0 && off == RoundUp(|f|, g.ClusterSize())
    ensures Grown(g, f, f + Zeros(off + g.ClusterSize() - |f|), off) == true
  {
    AlignedToSector(g, off);
    GrownByZeroes(g, f, off);
  }

  lemma GrownByZeroes(g: Geometry, f: seq<byte>, off: nat)
    requires g.ClusterSize() > 0 && ClusterAligned(g, off) && 0 < |f| && |f| <= off < |f| + g.ClusterSize() && off % SECTOR == 0
    ensures Grown(g, f, f + Zeros(off + g.ClusterSize() - |f|), off) == true
  {
    var f1 := f + Zeros(off + g.ClusterSize() - |f|);
    assert |f1| == off + SECTOR * g.clusterSectors;
    SectorsMore(off, g.clusterSectors);
  }

  lemma SectorsMore(off: nat, n: nat)
    requires off % SECTOR == 0
    ensures (off + SECTOR * n) % SECTOR == 0
  {
  }

  /** An update that leaves the compressed clusters with the cache's key alone leaves the cache right. */
  lemma ClusterCacheKept(env: Env, g: Geometry, m: Image, m': Image, i0: int, j0: int, key: int, data: seq<byte>)
    requires Shape(g, m) == true && Shape(g, m') == true && Keeps(g, m, m', i0, j0) == true
    requires ClusterCached(env, g, m, key, data) == true
    requires 0 <= i0 < g.l1Size && 0 <= j0 < g.l2Size ==>
               !m'.clusters[i0][j0].Packed? || m'.clusters[i0][j0].off != key
    ensures ClusterCached(env, g, m', key, data) == true
  {
    assert ClusterCached(env, g, m, key, data);
    forall i, j | 0 <= i < g.l1Size && 0 <= j < g.l2Size && m'.clusters[i][j].Packed? && m'.clusters[i][j].off == key
      ensures m'.clusters[i][j].off + m'.clusters[i][j].size <= |m'.file|
      ensures Decompress(env, g, m'.file, m'.clusters[i][j]) == Some(data)
    {
      assert m'.clusters[i][j] == m.clusters[i][j];
      DecompressSame(env, g, m.file, m'.file, m.clusters[i][j]);
    }
  }

  lemma DecompressSame(env: Env, g: Geometry, f: seq<byte>, f': seq<byte>, e: Entry)
    requires e.Packed? && SameOn(f, f', Start(e), Len(g, e))
    ensures e.off + e.size <= |f| && e.off + e.size <= |f'| && Decompress(env, g, f', e) == Decompress(env, g, f, e)
  {
  }

  /** What the driver takes the cluster of a compressed entry to hold: its one-entry cache comes first. */
  function Served(env: Env, g: Geometry, f: seq<byte>, e: Entry, key: int, cache: seq<byte>): Option<seq<byte>>
    requires e.Packed? && e.off + e.size <= |f|
  {
    if key == e.off then Some(cache) else Decompress(env, g, f, e)
  }

  datatype CacheOf<D> = Cache(key: int, data: D)

  type Cache = CacheOf<seq<byte>>

  /**
   * The one-cluster cache once the cluster of a compressed entry has been asked for. When inflating
   * fails its buffer has been used, but it keeps its old key.
   */
  function CacheAfter(env: Env, g: Geometry, f: seq<byte>, e: Entry, key: int, cache: seq<byte>): Cache
    requires e.Packed? && e.off + e.size <= |f|
  {
    if key == e.off then Cache(key, cache)
    else match Decompress(env, g, f, e)
      case Some(d) => Cache(e.off, d)
      case None => Cache(key, env.leftover(g.ClusterSize(), f[e.off..e.off + e.size], cache))
  }

  lemma CacheAfterOk(env: Env, g: Geometry, f: seq<byte>, e: Entry, key: int, cache: seq<byte>)
    requires env.Laws() && e.Packed? && 0 < e.size && e.off + e.size <= |f| && KeyOk(g, f, key, cache)
    ensures KeyOk(g, f, CacheAfter(env, g, f, e, key, cache).key, CacheAfter(env, g, f, e, key, cache).data)
  {
    assert env.LeftoverLaw(g.ClusterSize(), f[e.off..e.off + e.size], cache);
  }

  /** A cluster that inflates leaves a right cache right. */
  lemma CacheAfterRight(env: Env, g: Geometry, m: Image, i: nat, j: nat, key: int, cache: seq<byte>)
    requires WellFormed(env, g, m) == true && i < g.l1Size && j < g.l2Size && m.clusters[i][j].Packed?
    requires ClusterCached(env, g, m, key, cache) == true
    ensures var e := m.clusters[i][j];
            && e.off + e.size <= |m.file|
            && Served(env, g, m.file, e, key, cache) == Decompress(env, g, m.file, e)
            && (Decompress(env, g, m.file, e).Some? ==>
                  var after := CacheAfter(env, g, m.file, e, key, cache);
                  ClusterCached(env, g, m, after.key, after.data) == true && Some(after.data) == Decompress(env, g, m.file, e))
  {
    var e := m.clusters[i][j];
    assert EntryOk(g, m.clusters[i][j], |m.file|);
    assert ClusterCached(env, g, m, key, cache);
    if Decompress(env, g, m.file, e).Some? {
      OneClusterPerOffset(env, g, m, i, j, Decompress(env, g, m.file, e).value);
    }
  }

  /** A cluster that is copied up has no compressed entry any more, and no other has its offset. */
  lemma CopiedKeyFree(g: Geometry, m: Image, clusters: seq<seq<Entry>>, i: nat, j: nat, e: Entry, key: int)
    requires Layout(g, m, |m.file|) == true && i < g.l1Size && j < g.l2Size && !e.Packed?
    requires clusters == SetEntry(g, m.clusters, i, j, e)
    requires KeyFree(m.clusters, key) == true || (m.clusters[i][j].Packed? && m.clusters[i][j].off == key)
    ensures KeyFree(clusters, key) == true
  {
    forall i', j' | 0 <= i' < |clusters| && 0 <= j' < |clusters[i']| && clusters[i'][j'].Packed?
      ensures clusters[i'][j'].off != key
    {
      assert clusters[i'][j'] == m.clusters[i'][j'];
      assert EntryOk(g, m.clusters[i'][j'], |m.file|);
      assert EntryOk(g, m.clusters[i][j], |m.file|);
      assert EntriesApart(g, m.clusters[i][j], m.clusters[i'][j']);
      assert KeyFree(m.clusters, key) ==> m.clusters[i'][j'].off != key;
    }
  }

  class Qcow {
    const env: Env
    const g: Geometry
    var file: seq<byte>
    var l1: seq<nat>
    var l2Offsets: seq<nat>
    var l2Counts: seq<nat>
    var l2Tables: seq<seq<nat>>
    var clusterCache: seq<byte>
    var clusterCacheOffset: int
    ghost var clusters: seq<seq<Entry>>

    /** The driver state after opening a file whose header gave `g`. */
    constructor (env: Env, g: Geometry, f: seq<byte>, ghost clusters: seq<seq<Entry>>)
      ensures this.env == env && this.g == g && file == f && l1 == ReadWords(f, g.l1Offset, g.l1Size)
      ensures Img() == Image(f, l1, clusters)
      ensures WellFormed(env, g, Image(f, l1, clusters)) ==> Valid() == true
      ensures clusterCacheOffset == -1 && clusterCache == []
    {
      this.env, this.g, file := env, g, f;
      l1 := ReadWords(f, g.l1Offset, g.l1Size);
      l2Offsets, l2Counts := Zeros(L2_CACHE_SIZE), Zeros(L2_CACHE_SIZE);
      l2Tables := seq(L2_CACHE_SIZE, _ => []);
      clusterCache, clusterCacheOffset := [], -1;
      this.clusters := clusters;
    }

    ghost function Img(): Image
      reads this
    {
      Image(file, l1, clusters)
    }

    ghost predicate Valid()
      reads this
    {
      && WellFormed(env, g, Img())
      && TablesCached(g, Img(), l2Offsets, l2Tables)
      && CountsOk(l2Counts)
      && KeyOk(g, file, clusterCacheOffset, clusterCache)
    }

    /** The one-cluster cache can be relied on. */
    ghost predicate CacheRight()
      requires Shape(g, Img())
      reads this
    {
      ClusterCached(env, g, Img(), clusterCacheOffset, clusterCache)
    }

    /** Finds the slot of a table, or the least used slot to replace. */
    method LookupSlot(l2Offset: nat) returns (hit: bool, slot: nat)
      requires |l2Offsets| == L2_CACHE_SIZE && CountsOk(l2Counts)
      modifies `l2Counts
      ensures slot < L2_CACHE_SIZE && CountsOk(l2Counts)
      ensures hit <==> l2Offset in l2Offsets
      ensures hit ==> l2Offsets[slot] == l2Offset && l2Counts == Bump(old(l2Counts), slot)
      ensures hit ==> l2Offset !in l2Offsets[..slot]
      ensures !hit ==> l2Counts == old(l2Counts)
      ensures !hit ==> forall c :: 0 <= c < L2_CACHE_SIZE ==> l2Counts[slot] <= l2Counts[c]
      ensures !hit ==> forall c :: 0 <= c < slot ==> l2Counts[slot] < l2Counts[c]
    {
      var i := 0;
      while i < L2_CACHE_SIZE
        invariant 0 <= i <= L2_CACHE_SIZE
        invariant l2Offset !in l2Offsets[..i]
        invariant l2Counts == old(l2Counts)
      {
        if l2Offset == l2Offsets[i] {
          l2Counts := l2Counts[i := l2Counts[i] + 1];
          if l2Counts[i] == MAX_HITS {
            ghost var bumped := l2Counts;
            var j := 0;
            while j < L2_CACHE_SIZE
              invariant 0 <= j <= L2_CACHE_SIZE && |l2Counts| == L2_CACHE_SIZE
              invariant forall c :: 0 <= c < L2_CACHE_SIZE ==>
                          l2Counts[c] == if c < j then bumped[c] / 2 else bumped[c]
            {
              l2Counts := l2Counts[j := l2Counts[j] / 2];
              j := j + 1;
            }
            assert l2Counts == Halved(bumped);
          }
          return true, i;
        }
        i := i + 1;
      }
      slot := 0;
      var least := MAX_HITS;
      i := 0;
      while i < L2_CACHE_SIZE
        invariant 0 <= i <= L2_CACHE_SIZE
        invariant 0 <= slot < L2_CACHE_SIZE && (i == 0 ==> least == MAX_HITS)
        invariant i > 0 ==> slot < i && least == l2Counts[slot]
        invariant forall c :: 0 <= c < i ==> least <= l2Counts[c]
        invariant i > 0 ==> forall c :: 0 <= c < slot ==> least < l2Counts[c]
      {
        if l2Counts[i] < least {
          least := l2Counts[i];
          slot := i;
        }
        i := i + 1;
      }
      return false, slot;
    }

    /** Makes an allocated L2 table available in the cache. */
    method LoadTable(i: nat) returns (slot: nat)
      requires Valid() && i < g.l1Size && l1[i] != 0
      modifies `l2Offsets, `l2Counts, `l2Tables
      ensures CountsOk(l2Counts) && TablesCached(g, Img(), l2Offsets, l2Tables)
      ensures slot < L2_CACHE_SIZE && l2Offsets[slot] == l1[i]
    {
      var hit;
      hit, slot := LookupSlot(l1[i]);
      if !hit {
        assert TableStored(g, Img(), i, |file|);
        l2Tables := l2Tables[slot := DecodeTable(g, file, l1[i])];
        l2Offsets := l2Offsets[slot := l1[i]];
        l2Counts := l2Counts[slot := 1];
        LoadedSlot(g, Img(), old(l2Offsets), l2Offsets, old(l2Tables), l2Tables, slot, i);
      }
    }

    /** Gives a zeroed L2 table a cache slot. */
    method CacheNewTable(off: nat) returns (slot: nat)
      requires off !in l2Offsets
      requires CountsOk(l2Counts) && |l2Offsets| == L2_CACHE_SIZE && |l2Tables| == L2_CACHE_SIZE
      modifies `l2Offsets, `l2Counts, `l2Tables
      ensures CountsOk(l2Counts)
      ensures slot < L2_CACHE_SIZE
      ensures l2Offsets == old(l2Offsets)[slot := off]
      ensures l2Tables == old(l2Tables)[slot := Zeros(g.l2Size)]
    {
      var hit;
      hit, slot := LookupSlot(off);
      assert !hit;
      l2Tables := l2Tables[slot := Zeros(g.l2Size)];
      l2Offsets := l2Offsets[slot := off];
      l2Counts := l2Counts[slot := 1];
    }

    /** Stores a zeroed L2 table at `off`, linked from level 1 index `i`. */
    method LinkTable(i: nat, off: nat)
      requires i < |l1|
      modifies `file, `l1
      ensures Img() == AppendTableAt(g, old(Img()), i, off)
    {
      l1 := l1[i := off];
      file := HostWrite(file, g.l1Offset + 8 * i, ToBE(8, off));
      file := HostWrite(file, off, Zeros(TableBytes(g)));
    }

    /** Appends a zeroed L2 table to the file, links it, and gives it a cache slot. */
    method AddTable(i: nat, off: nat) returns (slot: nat)
      requires i < |l1| && off !in l2Offsets
      requires CountsOk(l2Counts) && |l2Offsets| == L2_CACHE_SIZE && |l2Tables| == L2_CACHE_SIZE
      modifies `file, `l1, `l2Offsets, `l2Counts, `l2Tables
      ensures Img() == AppendTableAt(g, old(Img()), i, off)
      ensures CountsOk(l2Counts) && slot < L2_CACHE_SIZE
      ensures l2Offsets == old(l2Offsets)[slot := off]
      ensures l2Tables == old(l2Tables)[slot := Zeros(g.l2Size)]
    {
      LinkTable(i, off);
      slot := CacheNewTable(off);
    }

    /** The first half of a lookup: the L2 table of sector `k`, allocated if asked for. */
    method FindTable(k: nat, allocate: Allocate) returns (found: bool, i: nat, j: nat, slot: nat)
      requires Valid() && k < g.totalSectors
      requires allocate != Never ==> |file| + Slack(g) < TWO63
      modifies this
      ensures Valid() && i == g.L1Index(k) < g.l1Size && j == g.L2Index(k)
      ensures Keeps(g, old(Img()), Img(), -1, -1)
      ensures found ==> slot < L2_CACHE_SIZE && l1[i] != 0 && l2Offsets[slot] == l1[i]
      ensures !found ==> allocate == Never && clusters[i][j].Free?
      ensures allocate == Never ==> file == old(file) && l1 == old(l1)
      ensures old(|file|) <= |file| <= old(|file|) + TableBytes(g) + g.ClusterSize() + SECTOR
      ensures clusters == old(clusters)
      ensures old(l1)[i] != 0 ==> file == old(file) && l1 == old(l1)
      ensures allocate != Never ==> Img() == WithTable(g, old(Img()), i)
      ensures clusterCache == old(clusterCache) && clusterCacheOffset == old(clusterCacheOffset)
    {
      ghost var before := Img();
      g.ByteIndexes(k);
      g.L1IndexInRange(k);
      var offset := k * SECTOR;
      i := offset / (g.l2Size * g.ClusterSize());
      j := offset / g.ClusterSize() % g.l2Size;
      if l1[i] == 0 {
        if allocate == Never {
          KeepsSelf(g, before);
          return false, i, j, 0;
        }
        AppendTableAdds(g, before, i);
        NewTableNotCached(g, before, l2Offsets, l2Tables, NewTableOffset(g, before));
        slot := AddTable(i, RoundUp(|file|, g.ClusterSize()));
        TableAddedWellFormed(env, g, before, Img(), i, l1[i]);
        AddedSlot(g, before, Img(), old(l2Offsets), l2Offsets, old(l2Tables), l2Tables, slot, i);
      } else {
        slot := LoadTable(i);
        KeepsSelf(g, before);
      }
      found := true;
    }

    /** Decodes the compressed cluster of entry `e` into the one-entry cache, unless that has its key. */
    method DecompressCluster(e: Entry, ghost i: nat, ghost j: nat) returns (ok: bool)
      requires Layout(g, Img(), |file|) && env.Laws() && i < g.l1Size && j < g.l2Size && clusters[i][j] == e && e.Packed?
      requires KeyOk(g, file, clusterCacheOffset, clusterCache)
      modifies `clusterCache, `clusterCacheOffset
      ensures e.off + e.size <= |file|
      ensures ok <==> Served(env, g, file, e, old(clusterCacheOffset), old(clusterCache)).Some?
      ensures ok ==> Served(env, g, file, e, old(clusterCacheOffset), old(clusterCache)) == Some(clusterCache)
      ensures Cache(clusterCacheOffset, clusterCache) == CacheAfter(env, g, file, e, old(clusterCacheOffset), old(clusterCache))
      ensures KeyOk(g, file, clusterCacheOffset, clusterCache)
    {
      assert EntryOk(g, clusters[i][j], |file|);
      CacheAfterOk(env, g, file, e, clusterCacheOffset, clusterCache);
      var coffset := e.off;
      if clusterCacheOffset != coffset {
        var csize := e.size;
        var data := Inflate(env, g.ClusterSize(), file[coffset..coffset + csize]);
        if data.None? {
          // the buffer has been used, but keeps its old key
          clusterCache := env.leftover(g.ClusterSize(), file[coffset..coffset + csize], clusterCache);
          return false;
        }
        clusterCache := data.value;
        clusterCacheOffset := coffset;
      }
      ok := true;
    }

    /** Copies a compressed cluster, decoded, to fresh space; nothing happens to one that does not inflate. */
    method CopyUp(e: Entry, ghost i: nat, ghost j: nat) returns (ok: bool, off: nat)
      requires WellFormed(env, g, Img()) && KeyOk(g, file, clusterCacheOffset, clusterCache)
      requires i < g.l1Size && j < g.l2Size && clusters[i][j] == e && e.Packed? && clusterCacheOffset != e.off
      modifies `file, `clusterCache, `clusterCacheOffset
      ensures e.off + e.size <= old(|file|) && (ok <==> Decompress(env, g, old(file), e).Some?)
      ensures ok ==> off == RoundUp(old(|file|), g.ClusterSize()) && clusterCacheOffset == e.off
      ensures ok ==> Decompress(env, g, old(file), e) == Some(clusterCache) && file == HostWrite(old(file), off, clusterCache)
      ensures !ok ==> file == old(file) && clusterCacheOffset == old(clusterCacheOffset)
      ensures KeyOk(g, old(file), clusterCacheOffset, clusterCache)
    {
      ok := DecompressCluster(e, i, j);
      off := 0;
      if ok {
        off := RoundUp(|file|, g.ClusterSize());
        file := HostWrite(file, off, clusterCache);
      }
    }

    /** Grows the file by one cluster; in an encrypted image the part not written next is initialised. */
    method AllocateZeroed(k: nat, nStart: nat, nEnd: nat) returns (off: nat)
      requires g.Valid() && env.Laws() && |file| % SECTOR == 0 && nStart <= nEnd <= g.clusterSectors
      requires 0 < |file|
      modifies `file
      ensures Grown(g, old(file), file, off)
      ensures FreshSectors(env, g, old(file), file, k, Free, off, nStart, nEnd)
    {
      ghost var f0 := file;
      off := RoundUp(|file|, g.ClusterSize());
      LongerByCluster(g, file, off);
      file := file + Zeros(off + g.ClusterSize() - |file|);
      ghost var f1 := file;
      if env.crypt && nEnd - nStart < g.clusterSectors {
        EncryptInitial(k - g.InCluster(k), off, nStart, nEnd);
        EncryptedSectors(env, g, f0, f1, file, k, off, nStart, nEnd);
      } else {
        ZeroedSectors(env, g, f0, file, k, off, nStart, nEnd);
      }
    }

    /** Stores encrypted zeroes in the sectors of a new cluster that are not written next. */
    method EncryptInitial(startSect: nat, off: nat, nStart: nat, nEnd: nat)
      requires env.Laws() && |file| % SECTOR == 0 && off + g.ClusterSize() <= |file|
      modifies `file
      ensures |file| == old(|file|) && file[..off] == old(file)[..off]
      ensures EncryptedBefore(env, g, file, off, startSect, nStart, nEnd, g.clusterSectors)
    {
      var x := 0;
      while x < g.clusterSectors
        invariant 0 <= x <= g.clusterSectors
        invariant |file| == old(|file|) && file[..off] == old(file)[..off]
        invariant EncryptedBefore(env, g, file, off, startSect, nStart, nEnd, x)
      {
        if x < nStart || x >= nEnd {
          EncryptOneMore(env, g, file, off, startSect, nStart, nEnd, x);
          file := HostWrite(file, off + SECTOR * x, env.encrypt(startSect + x, Zeros(SECTOR)));
        }
        x := x + 1;
      }
    }

    /** Points the entry at `(i, j)` to new space, in the cached table and in the file. */
    method LinkEntry(i: nat, j: nat, slot: nat, w: nat, ghost e: Entry)
      requires i < |l1| && i < |clusters| && j < |clusters[i]| && w == EncodeEntry(g, e)
      requires slot < |l2Tables| && j < |l2Tables[slot]|
      modifies `file, `l2Tables, `clusters
      ensures Img() == StoreEntry(g, old(Img()), i, j, e)
      ensures l2Tables == SetWord(old(l2Tables), slot, j, w)
    {
      l2Tables := SetWord(l2Tables, slot, j, w);
      file := HostWrite(file, l1[i] + 8 * j, ToBE(8, w));
      clusters := SetEntry(g, clusters, i, j, e);
    }

    /** The entry word of the cluster of sector `k`, when nothing may be allocated. */
    method LookupCluster(k: nat) returns (w: nat)
      requires Valid() == true && k < g.totalSectors
      modifies this
      ensures Valid() == true && Img() == old(Img())
      ensures clusterCache == old(clusterCache) && clusterCacheOffset == old(clusterCacheOffset)
      ensures w == EncodeEntry(g, EntryOf(g, Img(), k))
    {
      var found, i, j, slot := FindTable(k, Never);
      if !found {
        return 0;
      }
      assert TableHolds(g, l2Tables[slot], clusters[i]);
      w := l2Tables[slot][j];
    }

    /** Gives the cluster at `(i, j)` plain space: copied up, if it inflates, or new and initialised. */
    method AllocateAndLink(k: nat, i: nat, j: nat, slot: nat, nStart: nat, nEnd: nat)
      returns (ok: bool, w: nat, ghost f1: seq<byte>)
      requires WellFormed(env, g, Img()) && KeyOk(g, file, clusterCacheOffset, clusterCache)
      requires KeyFree(clusters, clusterCacheOffset) == true
      requires i < g.l1Size && j < g.l2Size && !clusters[i][j].Plain? && nStart <= nEnd <= g.clusterSectors
      requires slot < |l2Tables| && j < |l2Tables[slot]| && l2Tables[slot][j] == EncodeEntry(g, clusters[i][j])
      modifies `file, `l2Tables, `clusters, `clusterCache, `clusterCacheOffset
      ensures ok <==> !CannotCopyUp(env, g, old(file), old(clusters)[i][j], nStart, nEnd)
      ensures ok ==> Grown(g, old(file), f1, w)
      ensures ok ==> FreshSectors(env, g, old(file), f1, k, old(clusters)[i][j], w, nStart, nEnd)
      ensures ok ==> Img() == StoreEntry(g, old(Img()).(file := f1), i, j, Plain(w))
      ensures ok ==> l2Tables == SetWord(old(l2Tables), slot, j, w)
      ensures !ok ==> Img() == old(Img()) && l2Tables == old(l2Tables)
      ensures KeyOk(g, old(file), clusterCacheOffset, clusterCache) && KeyFree(clusters, clusterCacheOffset) == true
    {
      ghost var m := Img();
      assert EntryOk(g, clusters[i][j], |file|);
      EntryKinds(g, clusters[i][j]);
      ok, w := AllocatePlainSpace(k, DecodeEntry(g, l2Tables[slot][j]), i, j, nStart, nEnd);
      f1 := file;
      if ok {
        LinkEntry(i, j, slot, w, Plain(w));
        CopiedKeyFree(g, m, clusters, i, j, Plain(w), clusterCacheOffset);
      }
    }

    /** New space for a cluster: a copy of the compressed one, or as much as is not written next initialised. */
    method AllocatePlainSpace(k: nat, e: Entry, ghost i: nat, ghost j: nat, nStart: nat, nEnd: nat) returns (ok: bool, w: nat)
      requires WellFormed(env, g, Img()) == true && KeyOk(g, file, clusterCacheOffset, clusterCache) == true
      requires KeyFree(clusters, clusterCacheOffset) == true
      requires i < g.l1Size && j < g.l2Size && clusters[i][j] == e && !e.Plain? && nStart <= nEnd <= g.clusterSectors
      modifies `file, `clusterCache, `clusterCacheOffset
      ensures ok <==> !CannotCopyUp(env, g, old(file), e, nStart, nEnd)
      ensures ok ==> Grown(g, old(file), file, w) == true && FreshSectors(env, g, old(file), file, k, e, w, nStart, nEnd) == true
      ensures !ok ==> file == old(file)
      ensures KeyOk(g, old(file), clusterCacheOffset, clusterCache) == true
      ensures KeyFree(clusters, clusterCacheOffset) == true || (ok && e.Packed? && clusterCacheOffset == e.off)
    {
      ghost var f := file;
      assert EntryOk(g, clusters[i][j], |file|);
      assert KeyFree(clusters, clusterCacheOffset);
      if e.Packed? && nEnd - nStart < g.clusterSectors {
        ok, w := CopyUp(e, i, j);
        if ok {
          CopiedSectors(env, g, f, k, e, w, clusterCache);
        }
      } else {
        ok := true;
        w := AllocateZeroed(k, nStart, nEnd);
        AllSectorsWritten(env, g, f, file, k, e, w, nStart, nEnd);
      }
    }

    /** Second half of a lookup for writing: the plain cluster at `(i, j)`. */
    method PlainClusterAt(k: nat, i: nat, j: nat, slot: nat, nStart: nat, nEnd: nat) returns (ok: bool, w: nat)
      requires Valid() && KeyFree(clusters, clusterCacheOffset) == true
      requires k < g.totalSectors && nStart <= nEnd <= g.clusterSectors
      requires i == g.L1Index(k) < g.l1Size && j == g.L2Index(k)
      requires slot < L2_CACHE_SIZE && l1[i] != 0 && l2Offsets[slot] == l1[i]
      requires |file| + 2 * g.ClusterSize() + SECTOR < TWO63
      modifies `file, `l2Tables, `clusters, `clusterCache, `clusterCacheOffset
      ensures Valid() && KeyFree(clusters, clusterCacheOffset) == true
      ensures ok <==> !CannotCopyUp(env, g, old(file), old(clusters)[i][j], nStart, nEnd)
      ensures ok ==> PlainReady(env, g, old(Img()), Img(), k, w, nStart, nEnd)
      ensures ok && !old(clusters)[i][j].Plain? ==> ClusterAligned(g, w) == true
      ensures !ok ==> Img() == old(Img())
      ensures |file| <= old(|file|) + 2 * g.ClusterSize() + SECTOR
    {
      ghost var m, tables := Img(), l2Tables;
      CachedWord(g, m, l2Offsets, l2Tables, slot, i, j);
      KeepsSelf(g, m);
      ok := true;
      w := l2Tables[slot][j];
      if w == 0 || w >= COMPRESSED_FLAG {
        ghost var f1;
        ok, w, f1 := AllocateAndLink(k, i, j, slot, nStart, nEnd);
        if ok {
          LinkedPlain(env, g, m, f1, k, i, j, w, nStart, nEnd);
          StoredEntryCached(g, m, Img(), l2Offsets, tables, slot, i, j, Plain(w));
        }
      } else {
        KeptPlainReady(env, g, m, k, nStart, nEnd);
      }
    }

    /** The offset of a plain cluster for sector `k`, allocated or copied up when needed. */
    method PlainClusterOffset(k: nat, nStart: nat, nEnd: nat) returns (ok: bool, w: nat)
      requires Valid() && KeyFree(clusters, clusterCacheOffset) == true
      requires k < g.totalSectors && nStart <= nEnd <= g.clusterSectors
      requires |file| + Slack(g) < TWO63
      modifies this
      ensures Valid() && KeyFree(clusters, clusterCacheOffset) == true
      ensures ok <==> !CannotCopyUp(env, g, old(file), EntryOf(g, old(Img()), k), nStart, nEnd)
      ensures ok ==> PlainReady(env, g, old(Img()), Img(), k, w, nStart, nEnd)
      ensures ok && !EntryOf(g, old(Img()), k).Plain? ==> ClusterAligned(g, w) == true
      ensures !ok ==> Img() == old(Img())
      ensures |file| <= old(|file|) + Slack(g)
    {
      ghost var m0 := Img();
      var found, i, j, slot := FindTable(k, AllocatePlain);
      ghost var m := Img();
      SectorTable(env, g, m0, k);
      CopyUpAfterTable(env, g, m0, m, k, nStart, nEnd);
      ok, w := PlainClusterAt(k, i, j, slot, nStart, nEnd);
      if ok {
        PlainReadyAfter(env, g, m0, m, Img(), k, w, nStart, nEnd);
      }
    }

    /** Encrypts or decrypts a run of sectors that starts at sector `k`. */
    method CryptRun(k: nat, n: nat, data: seq<byte>, enc: bool) returns (r: seq<byte>)
      requires env.Laws() && |data| == SECTOR * n
      ensures |r| == |data|
      ensures forall u :: 0 <= u < n ==>
                Part(r, u) == if enc then env.encrypt(k + u, Part(data, u)) else env.decrypt(k + u, Part(data, u))
    {
      r := [];
      var i := 0;
      while i < n
        invariant 0 <= i <= n && |r| == SECTOR * i
        invariant forall u :: 0 <= u < i ==>
                    Part(r, u) == if enc then env.encrypt(k + u, Part(data, u)) else env.decrypt(k + u, Part(data, u))
      {
        assert env.CryptLaw(k + i, Part(data, i));
        var d := if enc then env.encrypt(k + i, Part(data, i)) else env.decrypt(k + i, Part(data, i));
        AppendPart(r, d);
        r := r + d;
        i := i + 1;
      }
    }

    /** The stored form of a run of sectors in a plain cluster. */
    method EncodeRun(s: nat, n: nat, data: seq<byte>) returns (raw: seq<byte>)
      requires Valid() == true && |data| == SECTOR * n
      ensures EncodedRun(env, s, n, data, raw) == true
    {
      raw := data;
      if env.crypt {
        raw := CryptRun(s, n, data, true);
      }
      assert EncodedRun(env, s, n, data, raw);
    }

    /** Writes sectors [s, s + n) of one cluster, unless it would have to be copied up and does not inflate. */
    method WriteRun(s: nat, n: nat, data: seq<byte>) returns (ok: bool)
      requires Valid() == true && KeyFree(clusters, clusterCacheOffset) == true
      requires 0 < n && s + n <= g.totalSectors && g.InCluster(s) + n <= g.clusterSectors
      requires |data| == SECTOR * n && |file| + Slack(g) < TWO63
      modifies this
      ensures Valid() == true && KeyFree(clusters, clusterCacheOffset) == true && |file| <= old(|file|) + Slack(g)
      ensures ok <==> !RunRefused(env, g, old(Img()), s, n)
      ensures ok ==> RunApplied(env, g, old(Img()), Img(), s, n, data) == true
      ensures !ok ==> Img() == old(Img())
    {
      ghost var m0 := Img();
      var index := g.InCluster(s);
      var w;
      ok, w := PlainClusterOffset(s, index, index + n);
      if !ok {
        return;
      }
      ghost var m1 := Img();
      var raw := EncodeRun(s, n, data);
      RunStored(env, g, m0, m1, s, n, data, raw, w, l2Offsets, l2Tables);
      file := HostWrite(file, w + SECTOR * index, raw);
      assert Img() == WithRun(g, m1, s, w, raw);
    }

    /** Reads sectors [s, s + n) of one cluster. */
    method ReadRun(s: nat, n: nat) returns (r: Option<seq<byte>>)
      requires Valid() == true && 0 < n && s + n <= g.totalSectors && g.InCluster(s) + n <= g.clusterSectors
      modifies this
      ensures Valid() == true && Img() == old(Img())
      ensures RunOutcome(env, g, Img(), s, n, Cache(old(clusterCacheOffset), old(clusterCache)),
                         Cache(clusterCacheOffset, clusterCache), r) == true
    {
      var w := LookupCluster(s);
      ghost var m, was := Img(), Cache(clusterCacheOffset, clusterCache);
      SectorWord(env, g, m, s);
      if w == 0 {
        r := ReadBacking(s, n);
        BackingRun(env, g, m, s, n, r);
        UncompressedOutcome(env, g, m, s, n, was, r);
      } else if w >= COMPRESSED_FLAG {
        r := ReadCompressed(s, n, w);
      } else {
        r := ReadPlain(s, n, w);
        UncompressedOutcome(env, g, m, s, n, was, r);
      }
    }

    method ReadCompressed(s: nat, n: nat, w: nat) returns (r: Option<seq<byte>>)
      requires Valid() == true && 0 < n && s + n <= g.totalSectors && g.InCluster(s) + n <= g.clusterSectors
      requires EntryOf(g, Img(), s).Packed? && w == EncodeEntry(g, EntryOf(g, Img(), s))
      modifies `clusterCache, `clusterCacheOffset
      ensures Valid() == true
      ensures RunOutcome(env, g, Img(), s, n, Cache(old(clusterCacheOffset), old(clusterCache)),
                         Cache(clusterCacheOffset, clusterCache), r) == true
    {
      SectorEntryKinds(env, g, Img(), s);
      ghost var was := Cache(clusterCacheOffset, clusterCache);
      var index := g.InCluster(s);
      var ok := DecompressCluster(DecodeEntry(g, w), g.L1Index(s), g.L2Index(s));
      if !ok {
        FailedOutcome(env, g, Img(), s, n, was, Cache(clusterCacheOffset, clusterCache));
        return None;
      }
      InflatedOutcome(env, g, Img(), s, n, was, Cache(clusterCacheOffset, clusterCache));
      r := Some(clusterCache[SECTOR * index..SECTOR * index + SECTOR * n]);
    }

    method ReadPlain(s: nat, n: nat, w: nat) returns (r: Option<seq<byte>>)
      requires Valid() == true && 0 < n && s + n <= g.totalSectors && g.InCluster(s) + n <= g.clusterSectors
      requires EntryOf(g, Img(), s) == Plain(w)
      ensures ReadsAs(env, g, Img(), s, n, r) == true
    {
      SectorEntryKinds(env, g, Img(), s);
      if w % SECTOR != 0 {
        return None;
      }
      var index := g.InCluster(s);
      var buf := file[w + SECTOR * index..w + SECTOR * index + SECTOR * n];
      var plain := buf;
      if env.crypt {
        plain := CryptRun(s, n, buf, false);
      }
      PlainRun(env, g, Img(), s, n, buf, plain);
      r := Some(plain);
    }

    /** Reads from the backing image, or zeroes when there is none. */
    method ReadBacking(s: nat, n: nat) returns (r: Option<seq<byte>>)
      requires env.Laws() && 0 < n
      ensures BackingReadsAs(env, s, n, r)
    {
      if env.backing.None? {
        r := Some(Zeros(SECTOR * n));
        assert forall u :: 0 <= u < n ==> Part(r.value, u) == Zeros(SECTOR);
        return;
      }
      var base := env.backing.value;
      if s + n > |base| {
        assert env.Backing(s + n - 1).None?;
        return None;
      }
      var buf := [];
      var i := 0;
      while i < n
        invariant 0 <= i <= n && |buf| == SECTOR * i
        invariant forall u :: 0 <= u < i ==> Part(buf, u) == base[s + u]
      {
        AppendPart(buf, base[s + i]);
        buf := buf + base[s + i];
        i := i + 1;
      }
      r := Some(buf);
    }

    /** A guest read: the sectors' contents, or a failure when one cannot be read. */
    method Read(s: nat, n: nat) returns (r: Option<seq<byte>>)
      requires Valid() == true && s + n <= g.totalSectors
      modifies this
      ensures Valid() == true && Img() == old(Img())
      ensures old(CacheRight()) ==> ReadsAs(env, g, Img(), s, n, r) == true
      ensures old(CacheRight()) && r.Some? ==> CacheRight() == true
    {
      var buf := [];
      var done := 0;
      ghost var m, was := Img(), Cache(clusterCacheOffset, clusterCache);
      ReadNothing(env, g, m, s, was);
      while done < n
        invariant 0 <= done <= n
        invariant Valid() == true && Img() == m
        invariant ReadSoFar(env, g, m, s, done, was, Cache(clusterCacheOffset, clusterCache), Some(buf)) == true
      {
        var run := Min(g.clusterSectors - g.InCluster(s + done), n - done);
        ghost var before := Cache(clusterCacheOffset, clusterCache);
        var part := ReadRun(s + done, run);
        ReadRunMore(env, g, m, s, done, run, n, was, before, Cache(clusterCacheOffset, clusterCache), buf, part);
        if part.None? {
          return None;
        }
        buf := buf + part.value;
        done := done + run;
      }
      r := Some(buf);
    }

    /** One iteration of a write: the rest of the current cluster, or of the request. */
    method WriteStep(s: nat, n: nat, data: seq<byte>, done: nat, ghost m0: Image) returns (ok: bool, run: nat)
      requires Valid() == true && WellFormed(env, g, m0) == true && KeyFree(clusters, clusterCacheOffset) == true
      requires s + n <= g.totalSectors && |data| == SECTOR * n && done < n
      requires |file| + Slack(g) < TWO63
      requires WrittenSoFar(env, g, m0, Img(), s, n, data, done) == true
      modifies this
      ensures Valid() == true && KeyFree(clusters, clusterCacheOffset) == true
      ensures 0 < run && done + run <= n && |file| <= old(|file|) + Slack(g)
      ensures ok ==> WrittenSoFar(env, g, m0, Img(), s, n, data, done + run) == true
      ensures !ok ==> Img() == old(Img()) && WriteRefused(env, g, m0, s, n)
    {
      ghost var m := Img();
      run := Min(g.clusterSectors - g.InCluster(s + done), n - done);
      StepRefused(env, g, m0, m, s, n, done, run, data);
      var part := data[SECTOR * done..SECTOR * (done + run)];
      ok := WriteRun(s + done, run, part);
      if !ok {
        return;
      }
      StepApplied(env, g, m0, m, Img(), s, n, done, run, data);
    }

    /**
     * A guest write of `n` sectors. It stops at a compressed cluster that it covers only in part and
     * that does not inflate; what lies before is written. Either way the one-cluster cache is right after it.
     */
    method Write(s: nat, n: nat, data: seq<byte>) returns (ok: bool, ghost done: nat)
      requires Valid() == true && s + n <= g.totalSectors && |data| == SECTOR * n
      requires |file| + n * Slack(g) < TWO63
      modifies this
      ensures Valid() == true && CacheRight() && |file| <= old(|file|) + n * Slack(g)
      ensures done <= n && (ok ==> done == n)
      ensures WriteApplied(env, g, old(Img()), Img(), s, done, data[..SECTOR * done]) == true
      ensures ok <==> !WriteRefused(env, g, old(Img()), s, n)
    {
      clusterCacheOffset := -1;
      ghost var m0 := Img();
      NothingWritten(env, g, m0, s, n, data);
      done := 0;
      ok := true;
      var at := 0;
      while at < n
        invariant done == at <= n
        invariant Valid() == true && KeyFree(clusters, clusterCacheOffset) == true
        invariant |file| <= |m0.file| + at * Slack(g)
        invariant WrittenSoFar(env, g, m0, Img(), s, n, data, at) == true
      {
        SlackLeft(at, n, Slack(g));
        var run;
        ok, run := WriteStep(s, n, data, at, m0);
        if !ok {
          break;
        }
        SlackUsed(at, run, Slack(g));
        at := at + run;
        done := at;
      }
      MulMonotone(at, n, Slack(g));
      FreeKeyIsRight(env, g, Img(), clusterCacheOffset, clusterCache);
      WrittenAtLast(env, g, m0, Img(), s, n, data, at);
    }

    /** The table word for a compressed cluster of `size` bytes; an existing entry is returned as it is. */
    method CompressedClusterOffset(k: nat, size: nat) returns (w: nat, ghost before: Image)
      requires Valid() == true && k < g.totalSectors && 0 < size < g.ClusterSize() && |file| + Slack(g) < TWO63
      modifies this
      ensures WellFormed(env, g, before) == true && before.clusters == old(clusters)
      ensures Keeps(g, old(Img()), before, -1, -1) == true
      ensures |before.file| <= old(|file|) + TableBytes(g) + g.ClusterSize() + SECTOR
      ensures g.L1Index(k) < g.l1Size && before == WithTable(g, old(Img()), g.L1Index(k)) && before.l1[g.L1Index(k)] != 0
      ensures clusterCache == old(clusterCache) && clusterCacheOffset == old(clusterCacheOffset)
      ensures KeyOk(g, before.file, clusterCacheOffset, clusterCache)
      ensures !EntryOf(g, old(Img()), k).Free? ==>
                Valid() == true && Img() == old(Img()) && before == Img() && w == EncodeEntry(g, EntryOf(g, before, k))
      ensures EntryOf(g, old(Img()), k).Free? ==>
                && w == Pack(g, |before.file|, size)
                && Img() == StoreEntry(g, before, g.L1Index(k), g.L2Index(k), Packed(|before.file|, size))
                && CountsOk(l2Counts) && Shape(g, Img()) == true && TablesCached(g, Img(), l2Offsets, l2Tables) == true
    {
      ghost var m0 := Img();
      var found, i, j, slot := FindTable(k, AllocateCompressed(size));
      before := Img();
      SectorTable(env, g, m0, k);
      CachedWord(g, before, l2Offsets, l2Tables, slot, i, j);
      w := l2Tables[slot][j];
      if w == 0 {
        w := LinkCompressed(i, j, slot, size);
      }
    }

    /** Points a free entry at the end of the file. */
    method LinkCompressed(i: nat, j: nat, slot: nat, size: nat) returns (w: nat)
      requires Valid() == true && i < g.l1Size && j < g.l2Size && slot < L2_CACHE_SIZE
      requires l1[i] != 0 && l2Offsets[slot] == l1[i]
      modifies `file, `l2Tables, `clusters
      ensures w == Pack(g, old(|file|), size)
      ensures Img() == StoreEntry(g, old(Img()), i, j, Packed(old(|file|), size))
      ensures Shape(g, Img()) == true && TablesCached(g, Img(), l2Offsets, l2Tables) == true
    {
      ghost var m, tables := Img(), l2Tables;
      var off := |file|;
      w := Pack(g, off, size);
      CachedWord(g, m, l2Offsets, l2Tables, slot, i, j);
      LinkEntry(i, j, slot, w, Packed(off, size));
      StoreEntryShape(g, m, i, j, Packed(off, size));
      StoredEntryCached(g, m, Img(), l2Offsets, tables, slot, i, j, Packed(off, size));
    }

    /**
     * A compressed write of `n` sectors from `s`. A full cluster is stored for the cluster of `s`;
     * a short tail of the disk is first padded with zeroes; anything else is refused.
     */
    method WriteCompressed(s: nat, n: nat, buf: seq<byte>) returns (r: Status)
      requires Valid() == true && s < g.totalSectors && |buf| == SECTOR * n
      requires |file| + Slack(g) < TWO63 && |file| + g.clusterSectors * Slack(g) < TWO63
      modifies this
      ensures r == Invalid <==> n != g.clusterSectors && !(s + n == g.totalSectors && n < g.clusterSectors)
      ensures r == Invalid ==> Valid() == true && Img() == old(Img())
      ensures r != Invalid ==>
                n <= g.clusterSectors && ClusterOutcome(env, g, old(Img()), Img(), Valid(), s, Padded(g, n, buf), r) == true
      ensures r == Invalid ==> clusterCache == old(clusterCache) && clusterCacheOffset == old(clusterCacheOffset)
      ensures r != Invalid && Compressible(env, g, Padded(g, n, buf)) ==>
                CacheOutcome(env, g, old(Img()), Img(), s, Padded(g, n, buf), Cache(old(clusterCacheOffset), old(clusterCache)),
                             Cache(clusterCacheOffset, clusterCache)) == true
    {
      if n != g.clusterSectors {
        if s + n == g.totalSectors && n < g.clusterSectors {
          r := WriteFullCluster(s, buf + Zeros(g.ClusterSize() - |buf|));
          return;
        }
        return Invalid;
      }
      assert Padded(g, n, buf) == buf;
      r := WriteFullCluster(s, buf);
    }

    method WriteFullCluster(s: nat, buf: seq<byte>) returns (r: Status)
      requires Valid() == true && s < g.totalSectors && |buf| == g.ClusterSize()
      requires |file| + Slack(g) < TWO63 && |file| + g.clusterSectors * Slack(g) < TWO63
      modifies this
      ensures r != Invalid && ClusterOutcome(env, g, old(Img()), Img(), Valid(), s, buf, r) == true
      ensures Compressible(env, g, buf) ==>
                CacheOutcome(env, g, old(Img()), Img(), s, buf, Cache(old(clusterCacheOffset), old(clusterCache)),
                             Cache(clusterCacheOffset, clusterCache)) == true
    {
      ghost var m0 := Img();
      var z := env.deflate(buf);
      assert env.DeflateLaw(buf);
      if |z| >= g.ClusterSize() {
        if s + g.clusterSectors > g.totalSectors {
          return Failed;
        }
        ghost var done;
        var ok;
        ok, done := Write(s, g.clusterSectors, buf);
        WholeBuffer(g, buf, done);
        r := if ok then Done else Failed;
        assert r == Failed ==> WrittenUpTo(env, g, m0, Img(), s, buf, done);
      } else {
        StoreCompressed(s, buf, z);
        r := Done;
      }
    }

    /** Allocates a compressed cluster if there is none, and stores its data at its offset. */
    method StoreCompressed(s: nat, ghost data: seq<byte>, z: seq<byte>)
      requires Valid() == true && s < g.totalSectors && |data| == g.ClusterSize()
      requires z == env.deflate(data) && 0 < |z| < g.ClusterSize() && |file| + Slack(g) < TWO63
      modifies this
      ensures CompressedOutcome(env, g, old(Img()), Img(), Valid(), s, data) == true
      ensures CacheOutcome(env, g, old(Img()), Img(), s, data, Cache(old(clusterCacheOffset), old(clusterCache)),
                           Cache(clusterCacheOffset, clusterCache)) == true
    {
      ghost var m0 := Img();
      var w;
      ghost var before;
      w, before := CompressedClusterOffset(s, |z|);
      ghost var m, cache := Img(), Cache(clusterCacheOffset, clusterCache);
      file := HostWrite(file, CompressedOffset(g, w), z);
      if EntryOf(g, m0, s).Free? {
        NewDataStored(env, g, m0, before, m, Img(), s, data, w, l2Offsets, l2Tables);
        NewDataCached(env, g, m0, before, m, Img(), s, data, w, cache);
        KeyStaysOk(g, m0.file, before.file, Img().file, clusterCacheOffset, clusterCache);
      } else {
        OverwriteKeeps(env, g, m, Img(), s, data, l2Offsets, l2Tables);
        OverwriteCached(env, g, m, Img(), s, data, cache);
        KeyStaysOk(g, m.file, m.file, Img().file, clusterCacheOffset, clusterCache);
      }
    }
  }

  // ----- which writes are refused -----

  /** A compressed cluster that would have to be copied up, as not all of it is written, and does not inflate. */
  predicate CannotCopyUp(env: Env, g: Geometry, f: seq<byte>, e: Entry, nStart: nat, nEnd: nat)
  {
    e.Packed? && nEnd - nStart < g.clusterSectors && e.off + e.size <= |f| && Decompress(env, g, f, e).None?
  }

  ghost predicate RunRefused(env: Env, g: Geometry, m: Image, s: nat, n: nat)
    requires Shape(g, m) == true && s < g.totalSectors
  {
    CannotCopyUp(env, g, m.file, EntryOf(g, m, s), g.InCluster(s), g.InCluster(s) + n)
  }

  /** The cluster of sector `k` lies in [s, s + n) as a whole. */
  predicate Covered(g: Geometry, s: nat, n: nat, k: nat)
    requires g.Valid()
  {
    s <= k - g.InCluster(k) && k - g.InCluster(k) + g.clusterSectors <= s + n
  }

  ghost predicate SectorRefused(env: Env, g: Geometry, m: Image, s: nat, n: nat, k: nat)
    requires WellFormed(env, g, m) == true && k < g.totalSectors
  {
    EntryOf(g, m, k).Packed? && !Covered(g, s, n, k) && GuestSector(env, g, m, k).None?
  }

  /** Some sector of the request lies in a compressed cluster that is covered only in part and does not inflate. */
  ghost predicate WriteRefused(env: Env, g: Geometry, m: Image, s: nat, n: nat)
    requires WellFormed(env, g, m) == true && s + n <= g.totalSectors
  {
    exists k :: s <= k < s + n && SectorRefused(env, g, m, s, n, k)
  }

  ghost predicate NoneRefused(env: Env, g: Geometry, m: Image, s: nat, n: nat, done: nat)
    requires WellFormed(env, g, m) == true && s + n <= g.totalSectors && done <= n
  {
    forall k :: s <= k < s + done ==> !SectorRefused(env, g, m, s, n, k)
  }

  lemma CoveredByRun(g: Geometry, s: nat, n: nat, at: nat, run: nat, k: nat)
    requires g.Valid() && at < n && run == Min(g.clusterSectors - g.InCluster(s + at), n - at)
    requires at == 0 || g.InCluster(s + at) == 0
    requires s + at <= k < s + at + run
    ensures g.Cluster(k) == g.Cluster(s + at)
    ensures Covered(g, s, n, k) <==> run >= g.clusterSectors
  {
    g.ClusterRun(s + at, k - (s + at));
  }

  lemma SameClusterReads(env: Env, g: Geometry, m: Image, a: nat, b: nat)
    requires WellFormed(env, g, m) == true && a < g.totalSectors && b < g.totalSectors && g.Cluster(a) == g.Cluster(b)
    ensures EntryOf(g, m, a) == EntryOf(g, m, b)
    ensures EntryOf(g, m, a).Packed? ==>
              && EntryOf(g, m, a).off + EntryOf(g, m, a).size <= |m.file|
              && (GuestSector(env, g, m, a).None? <==> Decompress(env, g, m.file, EntryOf(g, m, b)).None?)
  {
    IndexesOfCluster(g, a, b);
    SectorEntryKinds(env, g, m, a);
  }

  lemma RefusedNext(env: Env, g: Geometry, m: Image, s: nat, n: nat, at: nat, run: nat)
    requires WellFormed(env, g, m) == true && s + n <= g.totalSectors && at < n
    requires run == Min(g.clusterSectors - g.InCluster(s + at), n - at) && (at == 0 || g.InCluster(s + at) == 0)
    requires NoneRefused(env, g, m, s, n, at) == true
    ensures RunRefused(env, g, m, s + at, run) ==> WriteRefused(env, g, m, s, n)
    ensures !RunRefused(env, g, m, s + at, run) ==> NoneRefused(env, g, m, s, n, at + run) == true
  {
    assert NoneRefused(env, g, m, s, n, at);
    forall k | s + at <= k < s + at + run
      ensures SectorRefused(env, g, m, s, n, k) == RunRefused(env, g, m, s + at, run)
    {
      CoveredByRun(g, s, n, at, run, k);
      SameClusterReads(env, g, m, k, s + at);
    }
    if RunRefused(env, g, m, s + at, run) {
      assert SectorRefused(env, g, m, s, n, s + at);
    }
  }

  /** What was written before in the same request does not touch the cluster of the next run. */
  lemma RefusedAsAtFirst(env: Env, g: Geometry, m0: Image, m: Image, s: nat, done: nat, run: nat, data: seq<byte>)
    requires WellFormed(env, g, m0) == true && WellFormed(env, g, m) == true && |data| == SECTOR * done
    requires 0 < run && s + done + run <= g.totalSectors && g.InCluster(s + done) + run <= g.clusterSectors
    requires done == 0 || g.InCluster(s + done) == 0
    requires WriteApplied(env, g, m0, m, s, done, data) == true
    ensures RunRefused(env, g, m, s + done, run) == RunRefused(env, g, m0, s + done, run)
  {
    var t := s + done;
    TouchedByRun(g, s, done, run, t);
    assert SectorWritten(env, g, m0, m, s, done, data, t);
    SameClusterReads(env, g, m0, t, t);
    SameClusterReads(env, g, m, t, t);
  }

  lemma CopyUpAfterTable(env: Env, g: Geometry, m0: Image, m: Image, k: nat, nStart: nat, nEnd: nat)
    requires Shape(g, m0) == true && Shape(g, m) == true && k < g.totalSectors && m.clusters == m0.clusters && Keeps(g, m0, m, -1, -1)
    ensures g.L1Index(k) < g.l1Size && EntryOf(g, m0, k) == m.clusters[g.L1Index(k)][g.L2Index(k)]
    ensures CannotCopyUp(env, g, m.file, EntryOf(g, m0, k), nStart, nEnd)
            == CannotCopyUp(env, g, m0.file, EntryOf(g, m0, k), nStart, nEnd)
  {
    g.L1IndexInRange(k);
    var e := EntryOf(g, m0, k);
    assert !m0.clusters[g.L1Index(k)][g.L2Index(k)].Free? ==> SameOn(m0.file, m.file, Start(e), Len(g, e));
  }

  // ----- reads through the one-cluster cache -----

  /** What the driver returns for a run of a compressed cluster. */
  function ServedRun(env: Env, g: Geometry, m: Image, s: nat, n: nat, key: int, cache: seq<byte>): Option<seq<byte>>
    requires WellFormed(env, g, m) == true && s < g.totalSectors && g.InCluster(s) + n <= g.clusterSectors
    requires EntryOf(g, m, s).Packed? && KeyOk(g, m.file, key, cache)
  {
    SectorEntryKinds(env, g, m, s);
    match Served(env, g, m.file, EntryOf(g, m, s), key, cache)
    case Some(d) => Some(d[SECTOR * g.InCluster(s)..SECTOR * g.InCluster(s) + SECTOR * n])
    case None => None
  }

  /** The two things a run of one cluster does: it gives its data, and it may replace what is cached. */
  ghost predicate RunOutcome(env: Env, g: Geometry, m: Image, s: nat, n: nat, was: Cache, cache: Cache, r: Option<seq<byte>>)
    requires WellFormed(env, g, m) == true && 0 < n && s + n <= g.totalSectors && g.InCluster(s) + n <= g.clusterSectors
    requires KeyOk(g, m.file, was.key, was.data)
  {
    var e := EntryOf(g, m, s);
    if e.Packed? then
      && e.off + e.size <= |m.file|
      && r == ServedRun(env, g, m, s, n, was.key, was.data)
      && cache == CacheAfter(env, g, m.file, e, was.key, was.data)
    else
      cache == was && ReadsAs(env, g, m, s, n, r)
  }

  lemma UncompressedOutcome(env: Env, g: Geometry, m: Image, s: nat, n: nat, was: Cache, r: Option<seq<byte>>)
    requires WellFormed(env, g, m) == true && 0 < n && s + n <= g.totalSectors && g.InCluster(s) + n <= g.clusterSectors
    requires KeyOk(g, m.file, was.key, was.data)
    requires !EntryOf(g, m, s).Packed? && ReadsAs(env, g, m, s, n, r) == true
    ensures RunOutcome(env, g, m, s, n, was, was, r) == true
  {
  }

  lemma FailedOutcome(env: Env, g: Geometry, m: Image, s: nat, n: nat, was: Cache, cache: Cache)
    requires WellFormed(env, g, m) == true && 0 < n && s + n <= g.totalSectors && g.InCluster(s) + n <= g.clusterSectors
    requires KeyOk(g, m.file, was.key, was.data) == true
    requires var e := EntryOf(g, m, s);
             && e.Packed? && e.off + e.size <= |m.file| && Served(env, g, m.file, e, was.key, was.data).None?
             && cache == CacheAfter(env, g, m.file, e, was.key, was.data)
    ensures RunOutcome(env, g, m, s, n, was, cache, None) == true
  {
  }

  lemma InflatedOutcome(env: Env, g: Geometry, m: Image, s: nat, n: nat, was: Cache, cache: Cache)
    requires WellFormed(env, g, m) == true && 0 < n && s + n <= g.totalSectors && g.InCluster(s) + n <= g.clusterSectors
    requires KeyOk(g, m.file, was.key, was.data) == true && |cache.data| == g.ClusterSize()
    requires var e := EntryOf(g, m, s);
             && e.Packed? && e.off + e.size <= |m.file| && Served(env, g, m.file, e, was.key, was.data) == Some(cache.data)
             && cache == CacheAfter(env, g, m.file, e, was.key, was.data)
    ensures RunOutcome(env, g, m, s, n, was, cache,
                       Some(cache.data[SECTOR * g.InCluster(s)..SECTOR * g.InCluster(s) + SECTOR * n])) == true
  {
  }

  lemma SectorWord(env: Env, g: Geometry, m: Image, s: nat)
    requires WellFormed(env, g, m) == true && s < g.totalSectors
    ensures var w := EncodeEntry(g, EntryOf(g, m, s));
            && (w == 0 <==> EntryOf(g, m, s).Free?)
            && (w >= COMPRESSED_FLAG <==> EntryOf(g, m, s).Packed?)
            && (EntryOf(g, m, s).Plain? ==> EntryOf(g, m, s) == Plain(w))
  {
    SectorEntryKinds(env, g, m, s);
  }

  lemma FreeKeyIsRight(env: Env, g: Geometry, m: Image, key: int, cache: seq<byte>)
    requires Shape(g, m) == true && KeyFree(m.clusters, key) == true
    ensures ClusterCached(env, g, m, key, cache) == true
  {
    assert KeyFree(m.clusters, key);
  }

  /** With the cache right, a run reads as its sectors; and unless it cannot be read the cache stays right. */
  lemma RunIsRight(env: Env, g: Geometry, m: Image, s: nat, n: nat, was: Cache, cache: Cache, r: Option<seq<byte>>)
    requires WellFormed(env, g, m) == true && 0 < n && s + n <= g.totalSectors && g.InCluster(s) + n <= g.clusterSectors
    requires ClusterCached(env, g, m, was.key, was.data) == true && KeyOk(g, m.file, was.key, was.data)
    requires RunOutcome(env, g, m, s, n, was, cache, r) == true
    ensures ReadsAs(env, g, m, s, n, r) == true
    ensures r.Some? ==> ClusterCached(env, g, m, cache.key, cache.data) == true
  {
    SectorEntryKinds(env, g, m, s);
    assert RunOutcome(env, g, m, s, n, was, cache, r);
    if EntryOf(g, m, s).Packed? {
      CacheAfterRight(env, g, m, g.L1Index(s), g.L2Index(s), was.key, was.data);
      if r.Some? {
        CachedRun(env, g, m, s, n, Decompress(env, g, m.file, EntryOf(g, m, s)).value);
      } else {
        SameClusterReads(env, g, m, s, s);
        assert GuestSector(env, g, m, s).None?;
      }
    }
  }

  /** A cache that was right at first has given the first sectors, and is right unless reading has failed. */
  ghost predicate ReadSoFar(env: Env, g: Geometry, m: Image, s: nat, n: nat, was: Cache, cache: Cache, r: Option<seq<byte>>)
    requires WellFormed(env, g, m) == true && s + n <= g.totalSectors
  {
    ClusterCached(env, g, m, was.key, was.data) ==>
      ReadsAs(env, g, m, s, n, r) && (r.Some? ==> ClusterCached(env, g, m, cache.key, cache.data))
  }

  lemma ReadNothing(env: Env, g: Geometry, m: Image, s: nat, was: Cache)
    requires WellFormed(env, g, m) == true && s <= g.totalSectors
    ensures ReadSoFar(env, g, m, s, 0, was, was, Some([])) == true
  {
  }

  lemma ReadRunMore(env: Env, g: Geometry, m: Image, s: nat, done: nat, run: nat, n: nat, was: Cache, before: Cache,
                    cache: Cache, buf: seq<byte>, part: Option<seq<byte>>)
    requires WellFormed(env, g, m) == true && s + n <= g.totalSectors && 0 < run && done + run <= n
    requires g.InCluster(s + done) + run <= g.clusterSectors && KeyOk(g, m.file, before.key, before.data)
    requires ReadSoFar(env, g, m, s, done, was, before, Some(buf)) == true
    requires RunOutcome(env, g, m, s + done, run, before, cache, part) == true
    ensures part.Some? ==> ReadSoFar(env, g, m, s, done + run, was, cache, Some(buf + part.value)) == true
    ensures part.None? ==> ReadSoFar(env, g, m, s, n, was, cache, None) == true
  {
    assert ReadSoFar(env, g, m, s, done, was, before, Some(buf));
    if ClusterCached(env, g, m, was.key, was.data) {
      RunIsRight(env, g, m, s + done, run, before, cache, part);
      ReadMore(env, g, m, s, done, run, n, buf, part);
    }
  }

  // ----- compressed writes -----

  lemma KeyStaysOk(g: Geometry, f: seq<byte>, f': seq<byte>, f'': seq<byte>, key: int, cache: seq<byte>)
    requires KeyOk(g, f', key, cache) && |f'| <= |f''|
    ensures KeyOk(g, f'', key, cache)
  {
  }

  lemma WholeBuffer(g: Geometry, buf: seq<byte>, done: nat)
    requires |buf| == g.ClusterSize()
    ensures done == g.clusterSectors ==> buf[..SECTOR * g.clusterSectors] == buf
  {
  }

  /** The data of a newly linked compressed cluster. */
  lemma NewDataStored(env: Env, g: Geometry, m0: Image, before: Image, m: Image, m': Image, s: nat, data: seq<byte>, w: nat,
                      offsets: seq<nat>, tables: seq<seq<nat>>)
    requires WellFormed(env, g, m0) == true && WellFormed(env, g, before) == true && s < g.totalSectors
    requires |data| == g.ClusterSize() && 0 < |env.deflate(data)| < g.ClusterSize()
    requires EntryOf(g, m0, s).Free? && Keeps(g, m0, before, -1, -1) == true && before.clusters == m0.clusters
    requires |before.file| <= |m0.file| + TableBytes(g) + g.ClusterSize() + SECTOR && |m0.file| + Slack(g) < TWO63
    requires g.L1Index(s) < g.l1Size && before.l1[g.L1Index(s)] != 0 && w == Pack(g, |before.file|, |env.deflate(data)|)
    requires m == StoreEntry(g, before, g.L1Index(s), g.L2Index(s), Packed(|before.file|, |env.deflate(data)|))
    requires m' == m.(file := HostWrite(m.file, CompressedOffset(g, w), env.deflate(data)))
    requires Shape(g, m) == true && TablesCached(g, m, offsets, tables) == true
    ensures |before.file| <= |m'.file|
    ensures |before.file| < g.offsetLimit ==>
              && WellFormed(env, g, m') == true && ClusterReplaced(env, g, m0, m', s, data) == true
              && TablesCached(g, m', offsets, tables) == true
  {
    StoredFileGrows(g, before, s, env.deflate(data), w);
    if |before.file| < g.offsetLimit {
      PackRoundTrip(g, |before.file|, |env.deflate(data)|);
      CompressedStored(env, g, m0, before, s, data, offsets, tables);
      assert m' == WithCompressed(env, g, before, s, data);
    }
  }

  lemma StoredFileGrows(g: Geometry, before: Image, s: nat, z: seq<byte>, w: nat)
    requires g.Valid() && g.L1Index(s) < |before.l1| && g.L1Index(s) < |before.clusters|
    requires g.L2Index(s) < |before.clusters[g.L1Index(s)]|
    ensures var m := StoreEntry(g, before, g.L1Index(s), g.L2Index(s), Packed(|before.file|, |z|));
            |before.file| <= |HostWrite(m.file, CompressedOffset(g, w), z)|
  {
  }

  /** The new cluster lies past the old end of the file, where no key points. */
  lemma NewDataCached(env: Env, g: Geometry, m0: Image, before: Image, m: Image, m': Image, s: nat, data: seq<byte>, w: nat,
                      cache: Cache)
    requires WellFormed(env, g, m0) == true && WellFormed(env, g, before) == true && s < g.totalSectors
    requires |data| == g.ClusterSize() && 0 < |env.deflate(data)| < g.ClusterSize()
    requires EntryOf(g, m0, s).Free? && Keeps(g, m0, before, -1, -1) == true && before.clusters == m0.clusters
    requires |before.file| <= |m0.file| + TableBytes(g) + g.ClusterSize() + SECTOR && |m0.file| + Slack(g) < TWO63
    requires g.L1Index(s) < g.l1Size && before.l1[g.L1Index(s)] != 0 && w == Pack(g, |before.file|, |env.deflate(data)|)
    requires m == StoreEntry(g, before, g.L1Index(s), g.L2Index(s), Packed(|before.file|, |env.deflate(data)|))
    requires m' == m.(file := HostWrite(m.file, CompressedOffset(g, w), env.deflate(data)))
    requires |m0.file| <= |before.file| && KeyOk(g, m0.file, cache.key, cache.data) && DataEnd(g, m0, s) == |before.file|
    ensures CacheOutcome(env, g, m0, m', s, data, cache, cache) == true
  {
    if ClusterCached(env, g, m0, cache.key, cache.data) && |before.file| < g.offsetLimit {
      PackRoundTrip(g, |before.file|, |env.deflate(data)|);
      assert m' == WithCompressed(env, g, before, s, data);
      CompressedLaidOut(env, g, before, s, data);
      KeepsAfter(g, m0, before, m', g.L1Index(s), g.L2Index(s));
      StoredFileGrows(g, before, s, env.deflate(data), w);
      ClusterCacheKept(env, g, m0, m', g.L1Index(s), g.L2Index(s), cache.key, cache.data);
    }
  }

  /** No L2 table lies in [off, off + n). */
  ghost predicate TablesClear(g: Geometry, m: Image, off: nat, n: nat)
    requires Shape(g, m) == true
  {
    forall i :: 0 <= i < g.l1Size && m.l1[i] != 0 ==> Apart(m.l1[i], TableBytes(g), off, n)
  }

  /** Data written over an existing cluster: when everything the driver relies on still holds. */
  lemma OverwriteKeeps(env: Env, g: Geometry, m: Image, m': Image, s: nat, data: seq<byte>, offsets: seq<nat>, tables: seq<seq<nat>>)
    requires WellFormed(env, g, m) == true && s < g.totalSectors && |data| == g.ClusterSize()
    requires 0 < |env.deflate(data)| < g.ClusterSize() && !EntryOf(g, m, s).Free? && |m.file| + Slack(g) < TWO63
    requires m' == m.(file := HostWrite(m.file, CompressedOffset(g, EncodeEntry(g, EntryOf(g, m, s))), env.deflate(data)))
    requires TablesCached(g, m, offsets, tables) == true
    ensures Overwritten(g, m, m', s, env.deflate(data)) && |m.file| <= |m'.file|
    ensures var e := EntryOf(g, m, s);
            (e.Plain? && e.off < g.offsetLimit) || (e.Packed? && TablesClear(g, m, e.off, |env.deflate(data)|)) ==>
              WellFormed(env, g, m') == true && TablesCached(g, m', offsets, tables) == true
  {
    var e, z := EntryOf(g, m, s), env.deflate(data);
    g.L1IndexInRange(s);
    SectorEntryKinds(env, g, m, s);
    WriteChangesOnly(m.file, CompressedOffset(g, EncodeEntry(g, e)), z);
    if e.Plain? && e.off < g.offsetLimit {
      SmallMod(e.off, g.offsetLimit);
      PlainWriteKeeps(env, g, m, m', g.L1Index(s), g.L2Index(s), e.off, z);
      SameMapCached(g, m, m', offsets, tables);
    } else if e.Packed? && TablesClear(g, m, e.off, |z|) {
      EntryOkInFile(env, g, m, s);
      ClearWriteKeeps(env, g, m, m', e.off, z);
      SameMapCached(g, m, m', offsets, tables);
    }
  }

  lemma EntryOkInFile(env: Env, g: Geometry, m: Image, s: nat)
    requires WellFormed(env, g, m) == true && s < g.totalSectors && EntryOf(g, m, s).Packed?
    ensures var e := EntryOf(g, m, s);
            && g.MetaEnd() <= e.off && e.off + e.size <= |m.file| && 0 < e.size < g.ClusterSize()
            && CompressedOffset(g, EncodeEntry(g, e)) == e.off
  {
    var e := EntryOf(g, m, s);
    g.L1IndexInRange(s);
    assert EntryOk(g, m.clusters[g.L1Index(s)][g.L2Index(s)], |m.file|);
    FieldWidths(g);
    ProductAtLeast(g.ClusterSize(), g.offsetLimit);
    PackRoundTrip(g, e.off, e.size);
  }

  /** A write clear of header and tables keeps the layout, whatever clusters it runs over. */
  lemma ClearWriteKeeps(env: Env, g: Geometry, m: Image, m': Image, off: nat, z: seq<byte>)
    requires WellFormed(env, g, m) == true && g.MetaEnd() <= off <= |m.file| && TablesClear(g, m, off, |z|)
    requires |m.file| + |z| + SECTOR < TWO63
    requires m' == m.(file := HostWrite(m.file, off, z))
    ensures WellFormed(env, g, m') == true && |m.file| <= |m'.file|
  {
    WriteChangesOnly(m.file, off, z);
    ChangedOnlyFrame(m.file, m'.file, off, |z|, 0, g.MetaEnd());
    assert Shape(g, m');
    forall i | 0 <= i < g.l1Size && m.l1[i] != 0
      ensures TableStored(g, m', i, |m'.file|)
    {
      assert TableStored(g, m, i, |m.file|);
      ChangedOnlyFrame(m.file, m'.file, off, |z|, m.l1[i], TableBytes(g));
      TableKept(g, m, m', i, |m.file|, |m'.file|);
    }
    SameMapLayout(g, m, m', |m.file|, |m'.file|);
    assert WellFormed(env, g, m');
  }

  lemma OverwriteCached(env: Env, g: Geometry, m: Image, m': Image, s: nat, data: seq<byte>, cache: Cache)
    requires WellFormed(env, g, m) == true && s < g.totalSectors && |data| == g.ClusterSize()
    requires 0 < |env.deflate(data)| < g.ClusterSize() && !EntryOf(g, m, s).Free?
    requires m' == m.(file := HostWrite(m.file, CompressedOffset(g, EncodeEntry(g, EntryOf(g, m, s))), env.deflate(data)))
    ensures CacheOutcome(env, g, m, m', s, data, cache, cache) == true
  {
    var e, z := EntryOf(g, m, s), env.deflate(data);
    g.L1IndexInRange(s);
    SectorEntryKinds(env, g, m, s);
    if ClusterCached(env, g, m, cache.key, cache.data) && CacheSurvives(g, m, s, |z|, cache.key) {
      if e.Plain? {
        SmallMod(e.off, g.offsetLimit);
        PlainWriteKeeps(env, g, m, m', g.L1Index(s), g.L2Index(s), e.off, z);
      } else {
        EntryOkInFile(env, g, m, s);
        PackedWriteKeeps(env, g, m, m', g.L1Index(s), g.L2Index(s), data);
      }
      ClusterCacheKept(env, g, m, m', g.L1Index(s), g.L2Index(s), cache.key, cache.data);
    }
  }

  /** Storing `size` compressed bytes for the cluster of `s` touches nothing that the cache's key names. */
  ghost predicate CacheSurvives(g: Geometry, m: Image, s: nat, size: nat, key: int)
    requires Shape(g, m) == true && s < g.totalSectors
  {
    match EntryOf(g, m, s)
    case Free => DataEnd(g, m, s) < g.offsetLimit
    case Plain(off) => off < g.offsetLimit
    case Packed(off, was) => size <= was && key != off
  }

  /** Compressed data is stored behind the back of the one-cluster cache, which is right afterwards if it survives that. */
  ghost predicate CacheOutcome(env: Env, g: Geometry, m: Image, m': Image, s: nat, data: seq<byte>, was: Cache, cache: Cache)
    requires WellFormed(env, g, m) == true && s < g.totalSectors
  {
    && cache == was
    && (ClusterCached(env, g, m, was.key, was.data) && CacheSurvives(g, m, s, |env.deflate(data)|, was.key) ==>
          Shape(g, m') && ClusterCached(env, g, m', was.key, was.data))
  }

  lemma SmallMod(a: nat, b: nat)
    requires a < b
    ensures a % b == a
  {
  }

  /** A compressed cluster written over by data that deflates to no more bytes than it has. */
  lemma PackedWriteKeeps(env: Env, g: Geometry, m: Image, m': Image, i: nat, j: nat, data: seq<byte>)
    requires WellFormed(env, g, m) == true && i < g.l1Size && j < g.l2Size && m.clusters[i][j].Packed?
    requires |data| == g.ClusterSize() && |env.deflate(data)| <= m.clusters[i][j].size
    requires m' == m.(file := HostWrite(m.file, m.clusters[i][j].off, env.deflate(data)))
    ensures |m'.file| == |m.file| && WellFormed(env, g, m') == true && Keeps(g, m, m', i, j) == true
    ensures var e := m.clusters[i][j]; e.off + e.size <= |m'.file| && Decompress(env, g, m'.file, e) == Some(data)
  {
    var e, z := m.clusters[i][j], env.deflate(data);
    assert EntryOk(g, m.clusters[i][j], |m.file|);
    WriteChangesOnly(m.file, e.off, z);
    WriteInCluster(g, m, i, j, e.off, |z|, m');
    PackedReads(env, g, m.file, e, data);
    assert WellFormed(env, g, m');
  }

  /** The old end of the stream behind the new one does not matter. */
  lemma PackedReads(env: Env, g: Geometry, f: seq<byte>, e: Entry, data: seq<byte>)
    requires env.Laws() && g.Valid() && e.Packed? && e.off + e.size <= |f| && |f| % SECTOR == 0
    requires |data| == g.ClusterSize() && |env.deflate(data)| <= e.size
    ensures var f' := HostWrite(f, e.off, env.deflate(data));
            e.off + e.size <= |f'| && Decompress(env, g, f', e) == Some(data)
  {
    var z := env.deflate(data);
    var f' := HostWrite(f, e.off, z);
    HostWriteLength(f, e.off, z);
    HostWriteData(f, e.off, z);
    var rest := f'[e.off + |z|..e.off + e.size];
    assert f'[e.off..e.off + e.size] == z + rest;
    assert env.EndLaw(data, rest);
  }

  /**
   * What storing compressible data for the cluster of `s` does to the image. Existing space is
   * written over as it is; the image is still well formed afterwards unless that hits an L2 table.
   */
  ghost predicate CompressedOutcome(env: Env, g: Geometry, m: Image, m': Image, valid: bool, s: nat, data: seq<byte>)
    requires WellFormed(env, g, m) == true && s < g.totalSectors && |data| == g.ClusterSize()
    requires valid ==> WellFormed(env, g, m') == true
  {
    match EntryOf(g, m, s)
    case Free =>
      && PlacedCompressed(g, m, m', s, env.deflate(data))
      && (DataEnd(g, m, s) < g.offsetLimit ==> valid && ClusterReplaced(env, g, m, m', s, data))
    case Plain(off) => Overwritten(g, m, m', s, env.deflate(data)) && (off < g.offsetLimit ==> valid)
    case Packed(off, size) =>
      Overwritten(g, m, m', s, env.deflate(data)) && (TablesClear(g, m, off, |env.deflate(data)|) ==> valid)
  }

  /** The first sectors of a full cluster of data have been written, but not all of them. */
  ghost predicate WrittenUpTo(env: Env, g: Geometry, m: Image, m': Image, s: nat, data: seq<byte>, done: nat)
    requires WellFormed(env, g, m) == true && |data| == g.ClusterSize()
  {
    done <= g.clusterSectors && WellFormed(env, g, m') == true && WriteApplied(env, g, m, m', s, done, data[..SECTOR * done])
  }

  /** What a compressed write of a full cluster does: compressed, as a normal write, or not at all. */
  ghost predicate ClusterOutcome(env: Env, g: Geometry, m: Image, m': Image, valid: bool, s: nat, data: seq<byte>, r: Status)
    requires WellFormed(env, g, m) == true && s < g.totalSectors && |data| == g.ClusterSize()
    requires valid ==> WellFormed(env, g, m') == true
  {
    if Compressible(env, g, data) then
      r == Done && CompressedOutcome(env, g, m, m', valid, s, data)
    else if s + g.clusterSectors > g.totalSectors then
      r == Failed && valid && m' == m
    else if WriteRefused(env, g, m, s, g.clusterSectors) then
      r == Failed && valid && exists done: nat :: WrittenUpTo(env, g, m, m', s, data, done)
    else
      r == Done && valid && WriteApplied(env, g, m, m', s, g.clusterSectors, data)
  }

  datatype Status = Done | Invalid | Failed

  lemma SectorTable(env: Env, g: Geometry, m: Image, k: nat)
    requires WellFormed(env, g, m) == true && k < g.totalSectors
    ensures g.L1Index(k) < g.l1Size
    ensures !EntryOf(g, m, k).Free? ==> m.l1[g.L1Index(k)] != 0
  {
    g.L1IndexInRange(k);
    assert m.l1[g.L1Index(k)] == 0 ==> m.clusters[g.L1Index(k)][g.L2Index(k)].Free?;
  }

  lemma StoreEntryShape(g: Geometry, m: Image, i: nat, j: nat, e: Entry)
    requires Shape(g, m) == true && i < g.l1Size && j < g.l2Size
    ensures Shape(g, StoreEntry(g, m, i, j, e)) == true
  {
    WriteChangesOnly(m.file, m.l1[i] + 8 * j, ToBE(8, EncodeEntry(g, e)));
    RowsKept(g, m.clusters, i, j, e);
    assert Shape(g, StoreEntry(g, m, i, j, e));
  }

  lemma LayoutGrows(g: Geometry, m: Image, end: nat, end': nat)
    requires Layout(g, m, end) == true && end <= end' < TWO63
    ensures Layout(g, m, end') == true
  {
    forall i | 0 <= i < g.l1Size && m.l1[i] != 0
      ensures TableStored(g, m, i, end')
    {
      assert TableStored(g, m, i, end);
    }
    SameMapLayout(g, m, m, end, end');
  }

  lemma KeepsPrefix(g: Geometry, m: Image, m': Image, m'': Image, i0: int, j0: int)
    requires Shape(g, m) == true && Shape(g, m') == true && Shape(g, m'') == true && Keeps(g, m, m', i0, j0) == true
    requires m'' == m'.(file := m''.file) && m'.file <= m''.file
    ensures Keeps(g, m, m'', i0, j0) == true
  {
    assert SameOn(m'.file, m''.file, 0, |m'.file|);
    forall i, j | 0 <= i < g.l1Size && 0 <= j < g.l2Size && (i != i0 || j != j0) && !m.clusters[i][j].Free?
      ensures SameOn(m.file, m''.file, Start(m.clusters[i][j]), Len(g, m.clusters[i][j]))
    {
      var a, n := Start(m.clusters[i][j]), Len(g, m.clusters[i][j]);
      SameOnPart(m'.file, m''.file, 0, |m'.file|, a, n);
      SameOnTrans(m.file, m'.file, m''.file, a, n);
    }
  }

  /** Linking a compressed cluster at the end of the file and then writing its data there. */
  lemma CompressedStored(env: Env, g: Geometry, m0: Image, m: Image, s: nat, data: seq<byte>,
                         offsets: seq<nat>, tables: seq<seq<nat>>)
    requires WellFormed(env, g, m0) == true && WellFormed(env, g, m) == true && s < g.totalSectors
    requires Keeps(g, m0, m, -1, -1) == true && m.clusters == m0.clusters && EntryOf(g, m0, s).Free?
    requires |data| == g.ClusterSize() && 0 < |env.deflate(data)| < g.ClusterSize()
    requires |m.file| < g.offsetLimit && |m.file| + |env.deflate(data)| + SECTOR < TWO63
    requires g.L1Index(s) < g.l1Size && m.l1[g.L1Index(s)] != 0
    requires var m2 := StoreEntry(g, m, g.L1Index(s), g.L2Index(s), Packed(|m.file|, |env.deflate(data)|));
             Shape(g, m2) && TablesCached(g, m2, offsets, tables) == true
    ensures var m3 := WithCompressed(env, g, m, s, data);
            && WellFormed(env, g, m3) == true && TablesCached(g, m3, offsets, tables) == true
            && ClusterReplaced(env, g, m0, m3, s, data) == true
  {
    var i, j := g.L1Index(s), g.L2Index(s);
    var m2 := StoreEntry(g, m, i, j, Packed(|m.file|, |env.deflate(data)|));
    var m3 := WithCompressed(env, g, m, s, data);
    CompressedLaidOut(env, g, m, s, data);
    KeepsAfter(g, m0, m, m3, i, j);
    SameMapCached(g, m2, m3, offsets, tables);
    CompressedReads(env, g, m, m3, i, j, data);
    CompressedView(env, g, m0, m3, s, data);
  }

  lemma CompressedLaidOut(env: Env, g: Geometry, m: Image, s: nat, data: seq<byte>)
    requires WellFormed(env, g, m) == true && s < g.totalSectors
    requires 0 < |env.deflate(data)| < g.ClusterSize()
    requires |m.file| < g.offsetLimit && |m.file| + |env.deflate(data)| + SECTOR < TWO63
    requires g.L1Index(s) < g.l1Size && m.l1[g.L1Index(s)] != 0
    requires m.clusters[g.L1Index(s)][g.L2Index(s)].Free?
    ensures var z := env.deflate(data); var m3 := WithCompressed(env, g, m, s, data);
            && Layout(g, m3, |m3.file|) == true && Keeps(g, m, m3, g.L1Index(s), g.L2Index(s)) == true
            && m3.clusters[g.L1Index(s)][g.L2Index(s)] == Packed(|m.file|, |z|)
            && |m.file| + |z| <= |m3.file| && m3.file[|m.file|..|m.file| + |z|] == z
  {
    var i, j, z := g.L1Index(s), g.L2Index(s), env.deflate(data);
    var m2 := StoreEntry(g, m, i, j, Packed(|m.file|, |z|));
    var m3 := WithCompressed(env, g, m, s, data);
    CompressedClusterLinked(env, g, m, m2, i, j, |z|);
    WriteChangesOnly(m2.file, |m.file|, z);
    HostWriteData(m2.file, |m.file|, z);
    CompressedDataStored(g, m, m2, m3, i, j, |z|);
  }

  lemma CompressedDataStored(g: Geometry, m: Image, m2: Image, m3: Image, i: nat, j: nat, size: nat)
    requires Layout(g, m, |m.file|) == true && Shape(g, m2) == true && i < g.l1Size && j < g.l2Size
    requires Layout(g, m2, |m.file| + size) == true && Keeps(g, m, m2, i, j) == true
    requires m2.clusters[i][j] == Packed(|m.file|, size) && |m2.file| == |m.file|
    requires m3 == m2.(file := m3.file) && m2.file <= m3.file && |m3.file| % SECTOR == 0
    requires |m.file| + size <= |m3.file| < TWO63
    ensures Layout(g, m3, |m3.file|) == true && Keeps(g, m, m3, i, j) == true
  {
    Extend(g, m2, |m.file| + size, m3);
    LayoutGrows(g, m3, |m.file| + size, |m3.file|);
    KeepsPrefix(g, m, m2, m3, i, j);
  }

  lemma KeepsAfter(g: Geometry, m0: Image, m: Image, m3: Image, i: nat, j: nat)
    requires Shape(g, m0) == true && Shape(g, m) == true && Shape(g, m3) == true
    requires Keeps(g, m0, m, -1, -1) == true && Keeps(g, m, m3, i, j) == true
    ensures Keeps(g, m0, m3, i, j) == true
  {
    KeepsWeaken(g, m0, m, i, j);
    KeepsTrans(g, m0, m, m3, i, j);
  }

  /** The image once compressed `data` has been linked and stored for the cluster of `s`. */
  function WithCompressed(env: Env, g: Geometry, m: Image, s: nat, data: seq<byte>): Image
    requires g.Valid() && g.L1Index(s) < |m.l1| && g.L1Index(s) < |m.clusters| && g.L2Index(s) < |m.clusters[g.L1Index(s)]|
  {
    var z := env.deflate(data);
    var m2 := StoreEntry(g, m, g.L1Index(s), g.L2Index(s), Packed(|m.file|, |z|));
    m2.(file := HostWrite(m2.file, |m.file|, z))
  }

  lemma CompressedReads(env: Env, g: Geometry, m: Image, m3: Image, i: nat, j: nat, data: seq<byte>)
    requires WellFormed(env, g, m) == true && i < g.l1Size && j < g.l2Size
    requires Layout(g, m3, |m3.file|) == true && Keeps(g, m, m3, i, j) == true
    requires |data| == g.ClusterSize()
    requires var z := env.deflate(data);
             && m3.clusters[i][j] == Packed(|m.file|, |z|)
             && |m.file| + |z| <= |m3.file| && m3.file[|m.file|..|m.file| + |z|] == z
    ensures WellFormed(env, g, m3) == true
    ensures Decompress(env, g, m3.file, m3.clusters[i][j]) == Some(data)
  {
    assert env.DeflateLaw(data);
    assert WellFormed(env, g, m3);
  }

  lemma CompressedView(env: Env, g: Geometry, m0: Image, m3: Image, s: nat, data: seq<byte>)
    requires WellFormed(env, g, m0) == true && WellFormed(env, g, m3) == true && s < g.totalSectors
    requires Keeps(g, m0, m3, g.L1Index(s), g.L2Index(s)) == true && |data| == g.ClusterSize()
    requires var e := EntryOf(g, m3, s);
             e.Packed? && e.off + e.size <= |m3.file| && Decompress(env, g, m3.file, e) == Some(data)
    ensures ClusterReplaced(env, g, m0, m3, s, data) == true
  {
    forall t | 0 <= t < g.totalSectors
      ensures GuestSector(env, g, m3, t) == if g.Cluster(t) == g.Cluster(s) then Some(Part(data, g.InCluster(t)))
                                            else GuestSector(env, g, m0, t)
    {
      IndexesOfCluster(g, s, t);
      if g.Cluster(t) != g.Cluster(s) {
        KeepsSector(env, g, m0, m3, g.L1Index(s), g.L2Index(s), t);
      }
    }
  }

  /** The cluster of sector `s`, and nothing else, now reads as `data`. */
  ghost predicate ClusterReplaced(env: Env, g: Geometry, m: Image, m': Image, s: nat, data: seq<byte>)
    requires WellFormed(env, g, m) == true && WellFormed(env, g, m') == true && |data| == g.ClusterSize()
  {
    forall t :: 0 <= t < g.totalSectors ==>
      GuestSector(env, g, m', t) == if g.Cluster(t) == g.Cluster(s) then Some(Part(data, g.InCluster(t)))
                                    else GuestSector(env, g, m, t)
  }

  /** The image with an L2 table at level 1 index `i`, appended if there was none. */
  function WithTable(g: Geometry, m: Image, i: nat): Image
    requires g.Valid() && i < |m.l1|
  {
    if m.l1[i] == 0 then AppendTable(g, m, i) else m
  }

  /** The end of the file once the cluster of `s` has an L2 table: where new compressed data goes. */
  function DataEnd(g: Geometry, m: Image, s: nat): nat
    requires g.Valid() && |m.l1| == g.l1Size && s < g.totalSectors
  {
    g.L1IndexInRange(s);
    |WithTable(g, m, g.L1Index(s)).file|
  }

  /** Compressed data `z` has been linked for a free cluster, and stored where its table word says. */
  ghost predicate PlacedCompressed(g: Geometry, m: Image, m': Image, s: nat, z: seq<byte>)
    requires Shape(g, m) == true && s < g.totalSectors
  {
    g.L1IndexInRange(s);
    var i, j, end := g.L1Index(s), g.L2Index(s), DataEnd(g, m, s);
    var linked := StoreEntry(g, WithTable(g, m, i), i, j, Packed(end, |z|));
    m' == linked.(file := HostWrite(linked.file, CompressedOffset(g, Pack(g, end, |z|)), z))
  }

  /** Compressed data `z` has been stored over whatever the cluster's existing entry points at. */
  ghost predicate Overwritten(g: Geometry, m: Image, m': Image, s: nat, z: seq<byte>)
    requires Shape(g, m) == true && s < g.totalSectors
  {
    m' == m.(file := HostWrite(m.file, CompressedOffset(g, EncodeEntry(g, EntryOf(g, m, s))), z))
  }

  /** Deflating gains space; otherwise the data is stored as a normal write. */
  predicate Compressible(env: Env, g: Geometry, data: seq<byte>) { |env.deflate(data)| < g.ClusterSize() }

  /** A short last cluster is completed with zeroes. */
  function Padded(g: Geometry, n: nat, buf: seq<byte>): (r: seq<byte>)
    requires |buf| == SECTOR * n && n <= g.clusterSectors
    ensures |r| == g.ClusterSize() && buf <= r && forall k :: |buf| <= k < |r| ==> r[k] == 0
  {
    buf + Zeros(g.ClusterSize() - |buf|)
  }

  lemma SlackLeft(done: nat, n: nat, slack: nat)
    requires done < n
    ensures done * slack + slack <= n * slack
  {
    MulMonotone(done + 1, n, slack);
    Distribute(done, 1, slack);
  }

  lemma SlackUsed(done: nat, run: nat, slack: nat)
    requires 0 < run
    ensures done * slack + slack <= (done + run) * slack
  {
    SlackLeft(done, done + run, slack);
  }

  /** The first `done` sectors of a request have been written, as far as the end of a cluster. */
  ghost predicate WrittenSoFar(env: Env, g: Geometry, m0: Image, m: Image, s: nat, n: nat, data: seq<byte>, done: nat)
    requires WellFormed(env, g, m0) == true && WellFormed(env, g, m) == true && s + n <= g.totalSectors && |data| == SECTOR * n
  {
    && done <= n && (done == 0 || done == n || g.InCluster(s + done) == 0)
    && WriteApplied(env, g, m0, m, s, done, data[..SECTOR * done]) == true
    && NoneRefused(env, g, m0, s, n, done) == true
  }

  lemma NothingWritten(env: Env, g: Geometry, m: Image, s: nat, n: nat, data: seq<byte>)
    requires WellFormed(env, g, m) == true && s + n <= g.totalSectors && |data| == SECTOR * n
    ensures WrittenSoFar(env, g, m, m, s, n, data, 0) == true
  {
  }

  lemma WrittenAtLast(env: Env, g: Geometry, m0: Image, m: Image, s: nat, n: nat, data: seq<byte>, done: nat)
    requires WellFormed(env, g, m0) == true && WellFormed(env, g, m) == true && s + n <= g.totalSectors && |data| == SECTOR * n
    requires WrittenSoFar(env, g, m0, m, s, n, data, done) == true
    ensures done <= n && WriteApplied(env, g, m0, m, s, done, data[..SECTOR * done]) == true
    ensures done == n ==> !WriteRefused(env, g, m0, s, n)
  {
    assert NoneRefused(env, g, m0, s, n, done);
  }

  /** A step is refused, or not, for the image as it was before the request. */
  lemma StepRefused(env: Env, g: Geometry, m0: Image, m: Image, s: nat, n: nat, done: nat, run: nat, data: seq<byte>)
    requires WellFormed(env, g, m0) == true && WellFormed(env, g, m) == true && s + n <= g.totalSectors && |data| == SECTOR * n
    requires done < n && run == Min(g.clusterSectors - g.InCluster(s + done), n - done)
    requires WrittenSoFar(env, g, m0, m, s, n, data, done) == true
    ensures RunRefused(env, g, m, s + done, run) ==> WriteRefused(env, g, m0, s, n)
    ensures !RunRefused(env, g, m, s + done, run) ==> NoneRefused(env, g, m0, s, n, done + run) == true
  {
    RefusedAsAtFirst(env, g, m0, m, s, done, run, data[..SECTOR * done]);
    RefusedNext(env, g, m0, s, n, done, run);
  }

  /** Sector `t` lies in a cluster that a write of [s, s + n) touches. */
  predicate Touched(g: Geometry, s: nat, n: nat, t: nat)
    requires g.Valid()
  {
    n > 0 && g.Cluster(s) <= g.Cluster(t) <= g.Cluster(s + n - 1)
  }

  /** The guest disk after a write: the data, and the residue of the touched clusters. */
  ghost function WriteView(env: Env, g: Geometry, m: Image, s: nat, n: nat, data: seq<byte>, t: nat): Option<seq<byte>>
    requires WellFormed(env, g, m) == true && t < g.totalSectors && |data| == SECTOR * n
  {
    if s <= t < s + n then Some(Part(data, t - s))
    else if Touched(g, s, n, t) then Residue(env, g, m, t)
    else GuestSector(env, g, m, t)
  }

  ghost predicate WriteApplied(env: Env, g: Geometry, m: Image, m': Image, s: nat, n: nat, data: seq<byte>)
    requires WellFormed(env, g, m) == true && WellFormed(env, g, m') == true && |data| == SECTOR * n
  {
    forall t :: 0 <= t < g.totalSectors ==> SectorWritten(env, g, m, m', s, n, data, t)
  }

  ghost predicate SectorWritten(env: Env, g: Geometry, m: Image, m': Image, s: nat, n: nat, data: seq<byte>, t: nat)
    requires WellFormed(env, g, m) == true && WellFormed(env, g, m') == true && |data| == SECTOR * n && t < g.totalSectors
  {
    && GuestSector(env, g, m', t) == WriteView(env, g, m, s, n, data, t)
    && (!Touched(g, s, n, t) ==> EntryOf(g, m', t) == EntryOf(g, m, t))
  }

  lemma ClusterMonotone(g: Geometry, a: nat, b: nat)
    requires g.Valid() && a <= b
    ensures g.Cluster(a) <= g.Cluster(b)
    ensures a < b && g.InCluster(b) == 0 ==> g.Cluster(a) < g.Cluster(b)
  {
    QuotientMonotone(a, b, g.clusterSectors);
    if a < b && g.InCluster(b) == 0 {
      NoClusterBetween(g, b);
      QuotientMonotone(a, b - 1, g.clusterSectors);
    }
  }

  lemma NextClusterStart(g: Geometry, s: nat, run: nat)
    requires g.Valid() && run == g.clusterSectors - g.InCluster(s)
    ensures g.InCluster(s + run) == 0
  {
    var c := g.clusterSectors;
    QuotientRemainder(s, c);
    Distribute(g.Cluster(s), 1, c);
    DivModUnique(s + run, c, g.Cluster(s) + 1, 0);
  }

  /** Which clusters one more run touches. */
  lemma TouchedByRun(g: Geometry, s: nat, done: nat, run: nat, t: nat)
    requires g.Valid() && 0 < run && g.InCluster(s + done) + run <= g.clusterSectors
    requires done == 0 || g.InCluster(s + done) == 0
    ensures Touched(g, s, done + run, t) <==> Touched(g, s, done, t) || g.Cluster(t) == g.Cluster(s + done)
    ensures g.Cluster(t) == g.Cluster(s + done) ==> !Touched(g, s, done, t)
  {
    var last := s + done + (run - 1);
    g.ClusterRun(s + done, run - 1);
    assert last == s + (done + run) - 1;
    if done > 0 {
      NoClusterBetween(g, s + done);
      ClusterMonotone(g, s, s + done - 1);
    }
  }

  lemma TouchedInside(g: Geometry, s: nat, done: nat, run: nat, t: nat)
    requires g.Valid() && 0 < run && g.InCluster(s + done) + run <= g.clusterSectors
    ensures s + done <= t < s + done + run ==> g.Cluster(t) == g.Cluster(s + done)
    ensures s <= t < s + done ==> Touched(g, s, done, t)
  {
    if s + done <= t < s + done + run {
      g.ClusterRun(s + done, t - (s + done));
    }
    if s <= t < s + done {
      ClusterMonotone(g, s, t);
      ClusterMonotone(g, t, s + done - 1);
    }
  }

  lemma NoClusterBetween(g: Geometry, b: nat)
    requires g.Valid() && 0 < b && g.InCluster(b) == 0
    ensures g.Cluster(b) == g.Cluster(b - 1) + 1
  {
    var c, y := g.clusterSectors, g.Cluster(b);
    QuotientRemainder(b, c);
    if y == 0 {
      assert false;
    }
    Distribute(y - 1, 1, c);
    DivModUnique(b - 1, c, y - 1, c - 1);
  }

  lemma WriteMore(env: Env, g: Geometry, m0: Image, m: Image, m': Image, s: nat, done: nat, run: nat,
                  data: seq<byte>, part: seq<byte>)
    requires WellFormed(env, g, m0) == true && WellFormed(env, g, m) == true && WellFormed(env, g, m') == true
    requires 0 < run && s + done + run <= g.totalSectors && g.InCluster(s + done) + run <= g.clusterSectors
    requires done == 0 || g.InCluster(s + done) == 0
    requires |data| == SECTOR * done && |part| == SECTOR * run
    requires WriteApplied(env, g, m0, m, s, done, data) == true
    requires RunApplied(env, g, m, m', s + done, run, part) == true
    ensures WriteApplied(env, g, m0, m', s, done + run, data + part) == true
  {
    var n', data' := done + run, data + part;
    forall t | 0 <= t < g.totalSectors
      ensures SectorWritten(env, g, m0, m', s, n', data', t) == true
    {
      assert SectorWritten(env, g, m0, m, s, done, data, t);
      assert SectorApplied(env, g, m, m', s + done, run, part, t);
      WriteMoreSector(env, g, m0, m, m', s, done, run, data, part, t);
    }
  }

  lemma StepApplied(env: Env, g: Geometry, m0: Image, m: Image, m': Image, s: nat, n: nat, done: nat, run: nat, data: seq<byte>)
    requires WellFormed(env, g, m0) == true && WellFormed(env, g, m) == true && WellFormed(env, g, m') == true
    requires s + n <= g.totalSectors && |data| == SECTOR * n && done < n
    requires run == Min(g.clusterSectors - g.InCluster(s + done), n - done)
    requires WrittenSoFar(env, g, m0, m, s, n, data, done) == true && NoneRefused(env, g, m0, s, n, done + run) == true
    requires RunApplied(env, g, m, m', s + done, run, data[SECTOR * done..SECTOR * (done + run)]) == true
    ensures WrittenSoFar(env, g, m0, m', s, n, data, done + run) == true
  {
    var part := data[SECTOR * done..SECTOR * (done + run)];
    WriteMore(env, g, m0, m, m', s, done, run, data[..SECTOR * done], part);
    assert data[..SECTOR * (done + run)] == data[..SECTOR * done] + part;
    if done + run < n {
      NextClusterStart(g, s + done, run);
    }
  }

  lemma WriteMoreSector(env: Env, g: Geometry, m0: Image, m: Image, m': Image, s: nat, done: nat, run: nat,
                        data: seq<byte>, part: seq<byte>, t: nat)
    requires WellFormed(env, g, m0) == true && WellFormed(env, g, m) == true && WellFormed(env, g, m') == true
    requires 0 < run && s + done + run <= g.totalSectors && g.InCluster(s + done) + run <= g.clusterSectors
    requires done == 0 || g.InCluster(s + done) == 0
    requires |data| == SECTOR * done && |part| == SECTOR * run && t < g.totalSectors
    requires SectorWritten(env, g, m0, m, s, done, data, t) == true
    requires SectorApplied(env, g, m, m', s + done, run, part, t) == true
    ensures SectorWritten(env, g, m0, m', s, done + run, data + part, t) == true
  {
    TouchedByRun(g, s, done, run, t);
    TouchedInside(g, s, done, run, t);
    JoinParts(data, part, done, run);
    if g.Cluster(t) == g.Cluster(s + done) && !(s + done <= t < s + done + run) {
      ResidueSame(env, g, m0, m, t);
    }
  }

  lemma ResidueSame(env: Env, g: Geometry, m: Image, m': Image, t: nat)
    requires WellFormed(env, g, m) == true && WellFormed(env, g, m') == true && t < g.totalSectors
    requires EntryOf(g, m', t) == EntryOf(g, m, t) && GuestSector(env, g, m', t) == GuestSector(env, g, m, t)
    ensures Residue(env, g, m', t) == Residue(env, g, m, t)
  {
  }

  /** A read returns the sectors' contents, or fails because one of them cannot be read. */
  ghost predicate ReadsAs(env: Env, g: Geometry, m: Image, s: nat, n: nat, r: Option<seq<byte>>)
    requires WellFormed(env, g, m) == true && s + n <= g.totalSectors
  {
    match r
    case Some(buf) => |buf| == SECTOR * n && forall t :: s <= t < s + n ==> GuestSector(env, g, m, t) == Some(Part(buf, t - s))
    case None => exists t :: s <= t < s + n && GuestSector(env, g, m, t).None?
  }

  ghost predicate BackingReadsAs(env: Env, s: nat, n: nat, r: Option<seq<byte>>)
  {
    match r
    case Some(buf) => |buf| == SECTOR * n && forall t :: s <= t < s + n ==> env.Backing(t) == Some(Part(buf, t - s))
    case None => exists t :: s <= t < s + n && env.Backing(t).None?
  }

  lemma ReadMore(env: Env, g: Geometry, m: Image, s: nat, done: nat, run: nat, n: nat, buf: seq<byte>, part: Option<seq<byte>>)
    requires WellFormed(env, g, m) == true && s + n <= g.totalSectors && done + run <= n
    requires ReadsAs(env, g, m, s, done, Some(buf)) == true && ReadsAs(env, g, m, s + done, run, part) == true
    ensures part.Some? ==> ReadsAs(env, g, m, s, done + run, Some(buf + part.value)) == true
    ensures part.None? ==> ReadsAs(env, g, m, s, n, None) == true
  {
    if part.Some? {
      JoinParts(buf, part.value, done, run);
    } else {
      var t :| s + done <= t < s + done + run && GuestSector(env, g, m, t).None?;
      assert s <= t < s + n;
    }
  }

  lemma JoinParts(a: seq<byte>, b: seq<byte>, n: nat, k: nat)
    requires |a| == SECTOR * n && |b| == SECTOR * k
    ensures forall u :: 0 <= u < n ==> Part(a + b, u) == Part(a, u)
    ensures forall u :: n <= u < n + k ==> Part(a + b, u) == Part(b, u - n)
  {
    forall u | n <= u < n + k
      ensures Part(a + b, u) == Part(b, u - n)
    {
      var l, r := Part(a + b, u), Part(b, u - n);
      assert forall x :: 0 <= x < SECTOR ==> l[x] == r[x];
    }
  }

  lemma SectorEntryKinds(env: Env, g: Geometry, m: Image, s: nat)
    requires WellFormed(env, g, m) == true && s < g.totalSectors
    ensures var e := EntryOf(g, m, s); var w := EncodeEntry(g, e);
            && (w == 0 <==> e.Free?) && (w >= COMPRESSED_FLAG <==> e.Packed?) && DecodeEntry(g, w) == e
            && (!e.Free? ==> Start(e) + Len(g, e) <= |m.file| && Start(e) % SECTOR == 0)
            && g.L1Index(s) < g.l1Size
  {
    g.L1IndexInRange(s);
    assert EntryOk(g, m.clusters[g.L1Index(s)][g.L2Index(s)], |m.file|);
    EntryKinds(g, EntryOf(g, m, s));
  }

  /** A sector of a run has the run's entry, and its place in the cluster. */
  lemma SectorOfRun(env: Env, g: Geometry, m: Image, s: nat, n: nat, t: nat)
    requires WellFormed(env, g, m) == true && s + n <= g.totalSectors && g.InCluster(s) + n <= g.clusterSectors
    requires s <= t < s + n
    ensures var e := EntryOf(g, m, s);
            && (!e.Free? ==> Start(e) + Len(g, e) <= |m.file|)
            && GuestSector(env, g, m, t) == EntrySector(env, g, m.file, e, t)
    ensures g.InCluster(t) == g.InCluster(s) + (t - s)
  {
    SectorEntryKinds(env, g, m, s);
    g.ClusterRun(s, t - s);
    IndexesOfCluster(g, s, t);
  }

  lemma BackingRun(env: Env, g: Geometry, m: Image, s: nat, n: nat, r: Option<seq<byte>>)
    requires WellFormed(env, g, m) == true && s + n <= g.totalSectors && g.InCluster(s) + n <= g.clusterSectors
    requires 0 < n && EntryOf(g, m, s).Free? && BackingReadsAs(env, s, n, r)
    ensures ReadsAs(env, g, m, s, n, r) == true
  {
    forall t | s <= t < s + n
      ensures GuestSector(env, g, m, t) == env.Backing(t)
    {
      SectorOfRun(env, g, m, s, n, t);
    }
  }

  lemma CachedRun(env: Env, g: Geometry, m: Image, s: nat, n: nat, d: seq<byte>)
    requires WellFormed(env, g, m) == true && s + n <= g.totalSectors && g.InCluster(s) + n <= g.clusterSectors
    requires 0 < n && EntryOf(g, m, s).Packed?
    requires var e := EntryOf(g, m, s); e.off + e.size <= |m.file| && Decompress(env, g, m.file, e) == Some(d)
    ensures ReadsAs(env, g, m, s, n, Some(d[SECTOR * g.InCluster(s)..SECTOR * g.InCluster(s) + SECTOR * n])) == true
  {
    var buf := d[SECTOR * g.InCluster(s)..SECTOR * g.InCluster(s) + SECTOR * n];
    forall t | s <= t < s + n
      ensures GuestSector(env, g, m, t) == Some(Part(buf, t - s))
    {
      SectorOfRun(env, g, m, s, n, t);
      CompressedSector(env, g, m.file, EntryOf(g, m, s), s, n, t, d);
    }
  }

  lemma CompressedSector(env: Env, g: Geometry, f: seq<byte>, e: Entry, s: nat, n: nat, t: nat, d: seq<byte>)
    requires g.Valid() && e.Packed? && e.off + e.size <= |f| && Decompress(env, g, f, e) == Some(d) && s <= t < s + n
    requires g.InCluster(s) + n <= g.clusterSectors && g.InCluster(t) == g.InCluster(s) + (t - s)
    ensures EntrySector(env, g, f, e, t)
            == Some(Part(d[SECTOR * g.InCluster(s)..SECTOR * g.InCluster(s) + SECTOR * n], t - s))
  {
    SliceOfSlice(d, SECTOR * g.InCluster(s), SECTOR * n, SECTOR * (t - s), SECTOR);
  }

  lemma PlainRun(env: Env, g: Geometry, m: Image, s: nat, n: nat, buf: seq<byte>, plain: seq<byte>)
    requires WellFormed(env, g, m) == true && s + n <= g.totalSectors && g.InCluster(s) + n <= g.clusterSectors
    requires 0 < n && EntryOf(g, m, s).Plain? && EntryOf(g, m, s).off + g.ClusterSize() <= |m.file|
    requires var from := EntryOf(g, m, s).off + SECTOR * g.InCluster(s); buf == m.file[from..from + SECTOR * n]
    requires |plain| == SECTOR * n && forall u :: 0 <= u < n ==> Part(plain, u) == env.Decode(s + u, Part(buf, u))
    ensures ReadsAs(env, g, m, s, n, Some(plain)) == true
  {
    forall t | s <= t < s + n
      ensures GuestSector(env, g, m, t) == Some(Part(plain, t - s))
    {
      SectorOfRun(env, g, m, s, n, t);
      PlainSector(env, g, m.file, EntryOf(g, m, s).off, s, n, t, buf);
      assert Part(plain, t - s) == env.Decode(s + (t - s), Part(buf, t - s));
    }
  }

  lemma PlainSector(env: Env, g: Geometry, f: seq<byte>, off: nat, s: nat, n: nat, t: nat, buf: seq<byte>)
    requires g.Valid() && off + g.ClusterSize() <= |f| && s <= t < s + n
    requires g.InCluster(s) + n <= g.clusterSectors && g.InCluster(t) == g.InCluster(s) + (t - s)
    requires var from := off + SECTOR * g.InCluster(s); buf == f[from..from + SECTOR * n]
    ensures EntrySector(env, g, f, Plain(off), t) == Some(env.Decode(t, Part(buf, t - s)))
  {
    SliceOfSlice(f, off + SECTOR * g.InCluster(s), SECTOR * n, SECTOR * (t - s), SECTOR);
  }

  /** Sector `u` of a buffer. */
  function Part(data: seq<byte>, u: nat): (r: seq<byte>)
    requires SECTOR * u + SECTOR <= |data|
    ensures |r| == SECTOR
  {
    data[SECTOR * u..SECTOR * u + SECTOR]
  }

  lemma AppendPart(r: seq<byte>, d: seq<byte>)
    requires |r| % SECTOR == 0 && |d| == SECTOR
    ensures Part(r + d, |r| / SECTOR) == d
    ensures forall u :: 0 <= u < |r| / SECTOR ==> Part(r + d, u) == Part(r, u)
  {
  }

  ghost predicate EncodedRun(env: Env, s: nat, n: nat, data: seq<byte>, raw: seq<byte>)
  {
    && |data| == SECTOR * n && |raw| == SECTOR * n
    && forall u :: 0 <= u < n ==> Part(raw, u) == env.Encode(s + u, Part(data, u))
  }

  /** The guest disk after sectors [s, s + n) of one cluster have been written. */
  ghost function RunView(env: Env, g: Geometry, m: Image, s: nat, n: nat, data: seq<byte>, t: nat): Option<seq<byte>>
    requires WellFormed(env, g, m) == true && t < g.totalSectors && |data| == SECTOR * n
  {
    if s <= t < s + n then Some(Part(data, t - s))
    else if g.Cluster(t) == g.Cluster(s) then Residue(env, g, m, t)
    else GuestSector(env, g, m, t)
  }

  /** Exactly the run, and the residue of its cluster, differ between two images. */
  ghost predicate RunApplied(env: Env, g: Geometry, m: Image, m': Image, s: nat, n: nat, data: seq<byte>)
    requires WellFormed(env, g, m) == true && WellFormed(env, g, m') == true && |data| == SECTOR * n && s < g.totalSectors
  {
    forall t :: 0 <= t < g.totalSectors ==> SectorApplied(env, g, m, m', s, n, data, t)
  }

  ghost predicate SectorApplied(env: Env, g: Geometry, m: Image, m': Image, s: nat, n: nat, data: seq<byte>, t: nat)
    requires WellFormed(env, g, m) == true && WellFormed(env, g, m') == true && |data| == SECTOR * n && t < g.totalSectors
  {
    && GuestSector(env, g, m', t) == RunView(env, g, m, s, n, data, t)
    && (g.Cluster(t) != g.Cluster(s) ==> EntryOf(g, m', t) == EntryOf(g, m, t))
  }

  /** The image once a run's stored form `raw` has been written into the cluster at `w`. */
  function WithRun(g: Geometry, m: Image, s: nat, w: nat, raw: seq<byte>): Image
    requires g.Valid()
  {
    m.(file := HostWrite(m.file, w + SECTOR * g.InCluster(s), raw))
  }

  lemma DataStored(env: Env, g: Geometry, m0: Image, m1: Image, s: nat, n: nat, raw: seq<byte>, w: nat,
                   offsets: seq<nat>, tables: seq<seq<nat>>)
    requires WellFormed(env, g, m0) == true && WellFormed(env, g, m1) == true && s < g.totalSectors
    requires g.InCluster(s) + n <= g.clusterSectors && |raw| == SECTOR * n
    requires PlainReady(env, g, m0, m1, s, w, g.InCluster(s), g.InCluster(s) + n) == true
    requires TablesCached(g, m1, offsets, tables) == true
    ensures w + g.ClusterSize() <= |m1.file| && |WithRun(g, m1, s, w, raw).file| == |m1.file|
    ensures WellFormed(env, g, WithRun(g, m1, s, w, raw)) == true
    ensures TablesCached(g, WithRun(g, m1, s, w, raw), offsets, tables) == true
    ensures Keeps(g, m1, WithRun(g, m1, s, w, raw), g.L1Index(s), g.L2Index(s)) == true
  {
    var i, j, off := g.L1Index(s), g.L2Index(s), w + SECTOR * g.InCluster(s);
    var m2 := WithRun(g, m1, s, w, raw);
    ReadyInFile(env, g, m0, m1, s, w, g.InCluster(s), g.InCluster(s) + n);
    PlainWriteKeeps(env, g, m1, m2, i, j, off, raw);
    SameMapCached(g, m1, m2, offsets, tables);
  }

  lemma ReadyInFile(env: Env, g: Geometry, m0: Image, m1: Image, s: nat, w: nat, nStart: nat, nEnd: nat)
    requires WellFormed(env, g, m0) == true && WellFormed(env, g, m1) == true && s < g.totalSectors
    requires PlainReady(env, g, m0, m1, s, w, nStart, nEnd) == true
    ensures g.L1Index(s) < g.l1Size && m1.clusters[g.L1Index(s)][g.L2Index(s)] == Plain(w)
    ensures w + g.ClusterSize() <= |m1.file|
  {
    assert PlainReady(env, g, m0, m1, s, w, nStart, nEnd);
    SectorEntryKinds(env, g, m1, s);
  }

  lemma RunStored(env: Env, g: Geometry, m0: Image, m1: Image, s: nat, n: nat, data: seq<byte>, raw: seq<byte>, w: nat,
                  offsets: seq<nat>, tables: seq<seq<nat>>)
    requires WellFormed(env, g, m0) == true && WellFormed(env, g, m1) == true && 0 < n && s + n <= g.totalSectors
    requires g.InCluster(s) + n <= g.clusterSectors && |data| == SECTOR * n && EncodedRun(env, s, n, data, raw) == true
    requires PlainReady(env, g, m0, m1, s, w, g.InCluster(s), g.InCluster(s) + n) == true
    requires TablesCached(g, m1, offsets, tables) == true
    ensures WellFormed(env, g, WithRun(g, m1, s, w, raw)) == true && |WithRun(g, m1, s, w, raw).file| == |m1.file|
    ensures TablesCached(g, WithRun(g, m1, s, w, raw), offsets, tables) == true
    ensures RunApplied(env, g, m0, WithRun(g, m1, s, w, raw), s, n, data) == true
  {
    assert |raw| == SECTOR * n by {
      assert EncodedRun(env, s, n, data, raw);
    }
    DataStored(env, g, m0, m1, s, n, raw, w, offsets, tables);
    RunWritten(env, g, m0, m1, s, n, data, raw, w);
  }

  lemma SameMapCached(g: Geometry, m: Image, m': Image, offsets: seq<nat>, tables: seq<seq<nat>>)
    requires Shape(g, m) == true && Shape(g, m') == true && m'.l1 == m.l1 && m'.clusters == m.clusters
    requires TablesCached(g, m, offsets, tables)
    ensures TablesCached(g, m', offsets, tables) == true
  {
  }

  lemma PlainWriteKeeps(env: Env, g: Geometry, m1: Image, m2: Image, i: nat, j: nat, off: nat, raw: seq<byte>)
    requires WellFormed(env, g, m1) == true && i < g.l1Size && j < g.l2Size
    requires m1.clusters[i][j].Plain? && m1.clusters[i][j].off <= off
    requires off + |raw| <= m1.clusters[i][j].off + g.ClusterSize() <= |m1.file|
    requires m2 == m1.(file := HostWrite(m1.file, off, raw))
    ensures |m2.file| == |m1.file| && WellFormed(env, g, m2) == true && Keeps(g, m1, m2, i, j) == true
  {
    WriteChangesOnly(m1.file, off, raw);
    WriteInCluster(g, m1, i, j, off, |raw|, m2);
    assert WellFormed(env, g, m2);
  }

  lemma RunWritten(env: Env, g: Geometry, m0: Image, m1: Image, s: nat, n: nat, data: seq<byte>, raw: seq<byte>, w: nat)
    requires WellFormed(env, g, m0) == true && WellFormed(env, g, m1) == true
    requires 0 < n && s + n <= g.totalSectors
    requires g.InCluster(s) + n <= g.clusterSectors && EncodedRun(env, s, n, data, raw) == true
    requires PlainReady(env, g, m0, m1, s, w, g.InCluster(s), g.InCluster(s) + n) == true
    requires WellFormed(env, g, WithRun(g, m1, s, w, raw)) == true
    requires w + g.ClusterSize() <= |m1.file| && Keeps(g, m1, WithRun(g, m1, s, w, raw), g.L1Index(s), g.L2Index(s)) == true
    ensures RunApplied(env, g, m0, WithRun(g, m1, s, w, raw), s, n, data) == true
  {
    var m2 := WithRun(g, m1, s, w, raw);
    KeepsTrans(g, m0, m1, m2, g.L1Index(s), g.L2Index(s));
    forall t | 0 <= t < g.totalSectors
      ensures SectorApplied(env, g, m0, m2, s, n, data, t) == true
    {
      if g.Cluster(t) != g.Cluster(s) {
        OtherClusterSector(env, g, m0, m2, s, n, data, t);
      } else {
        RunClusterSector(env, g, m0, m1, m2.file, s, n, data, raw, w, t);
      }
    }
  }

  lemma RunClusterSector(env: Env, g: Geometry, m0: Image, m1: Image, f: seq<byte>, s: nat, n: nat, data: seq<byte>,
                         raw: seq<byte>, w: nat, t: nat)
    requires WellFormed(env, g, m0) == true && WellFormed(env, g, m1) == true
    requires 0 < n && s + n <= g.totalSectors
    requires g.InCluster(s) + n <= g.clusterSectors && EncodedRun(env, s, n, data, raw) == true
    requires PlainReady(env, g, m0, m1, s, w, g.InCluster(s), g.InCluster(s) + n) == true
    requires f == HostWrite(m1.file, w + SECTOR * g.InCluster(s), raw) && WellFormed(env, g, m1.(file := f)) == true
    requires w + g.ClusterSize() <= |m1.file| && t < g.totalSectors && g.Cluster(t) == g.Cluster(s)
    ensures SectorApplied(env, g, m0, m1.(file := f), s, n, data, t) == true
  {
    SameClusterSector(env, g, m0, m1, s, n, data, raw, w, t);
    ReadyInFile(env, g, m0, m1, s, w, g.InCluster(s), g.InCluster(s) + n);
    RunEntry(env, g, m1, f, s, w, t);
    SectorHere(env, g, m0, m1.(file := f), s, n, data, t);
  }

  lemma SectorHere(env: Env, g: Geometry, m0: Image, m2: Image, s: nat, n: nat, data: seq<byte>, t: nat)
    requires WellFormed(env, g, m0) == true && WellFormed(env, g, m2) == true && |data| == SECTOR * n
    requires t < g.totalSectors && g.Cluster(t) == g.Cluster(s)
    requires GuestSector(env, g, m2, t) == RunView(env, g, m0, s, n, data, t)
    ensures SectorApplied(env, g, m0, m2, s, n, data, t) == true
  {
  }

  /** A sector of a plain cluster in an image that differs from another in its file. */
  lemma RunEntry(env: Env, g: Geometry, m1: Image, f: seq<byte>, s: nat, w: nat, t: nat)
    requires WellFormed(env, g, m1) == true && WellFormed(env, g, m1.(file := f)) == true
    requires s < g.totalSectors && t < g.totalSectors && g.Cluster(t) == g.Cluster(s) && g.L1Index(s) < g.l1Size
    requires m1.clusters[g.L1Index(s)][g.L2Index(s)] == Plain(w)
    ensures w + g.ClusterSize() <= |f| && GuestSector(env, g, m1.(file := f), t) == EntrySector(env, g, f, Plain(w), t)
  {
    IndexesOfCluster(g, s, t);
    SectorEntryKinds(env, g, m1.(file := f), s);
  }

  lemma OtherClusterSector(env: Env, g: Geometry, m0: Image, m2: Image, s: nat, n: nat, data: seq<byte>, t: nat)
    requires WellFormed(env, g, m0) == true && WellFormed(env, g, m2) == true
    requires s + n <= g.totalSectors && 0 < n && t < g.totalSectors
    requires g.InCluster(s) + n <= g.clusterSectors && |data| == SECTOR * n
    requires g.Cluster(t) != g.Cluster(s) && Keeps(g, m0, m2, g.L1Index(s), g.L2Index(s)) == true
    ensures SectorApplied(env, g, m0, m2, s, n, data, t) == true
  {
    IndexesOfCluster(g, s, t);
    g.L1IndexInRange(t);
    KeepsSector(env, g, m0, m2, g.L1Index(s), g.L2Index(s), t);
    if s <= t < s + n {
      g.ClusterRun(s, t - s);
    }
  }

  /** Sectors of the written cluster, inside and outside the run. */
  lemma SameClusterSector(env: Env, g: Geometry, m0: Image, m1: Image, s: nat, n: nat, data: seq<byte>, raw: seq<byte>,
                          w: nat, t: nat)
    requires WellFormed(env, g, m0) == true && WellFormed(env, g, m1) == true && 0 < n && s + n <= g.totalSectors
    requires g.InCluster(s) + n <= g.clusterSectors && EncodedRun(env, s, n, data, raw) == true
    requires PlainReady(env, g, m0, m1, s, w, g.InCluster(s), g.InCluster(s) + n) == true
    requires t < g.totalSectors && g.Cluster(t) == g.Cluster(s) && w + g.ClusterSize() <= |m1.file|
    ensures EntrySector(env, g, HostWrite(m1.file, w + SECTOR * g.InCluster(s), raw), Plain(w), t)
            == RunView(env, g, m0, s, n, data, t)
  {
    if s <= t < s + n {
      WrittenSector(env, g, m1.file, s, n, data, raw, w, t);
    } else {
      OutsideRun(env, g, m1.file, s, n, raw, w, t);
      UnwrittenSector(env, g, m0, m1, s, w, g.InCluster(s), g.InCluster(s) + n, t);
    }
  }

  lemma WrittenSector(env: Env, g: Geometry, f: seq<byte>, s: nat, n: nat, data: seq<byte>, raw: seq<byte>, w: nat, t: nat)
    requires g.Valid() && env.Laws() && EncodedRun(env, s, n, data, raw) == true
    requires s <= t < s + n && g.Cluster(t) == g.Cluster(s) && w + g.ClusterSize() <= |f|
    ensures var f' := HostWrite(f, w + SECTOR * g.InCluster(s), raw);
            w + g.ClusterSize() <= |f'| && EntrySector(env, g, f', Plain(w), t) == Some(Part(data, t - s))
  {
    ClusterOffsets(g, s, t);
    StoredPart(f, w + SECTOR * g.InCluster(s), raw, n, t - s, w + SECTOR * g.InCluster(t));
    assert env.CryptLaw(t, Part(data, t - s));
  }

  lemma StoredPart(f: seq<byte>, off: nat, raw: seq<byte>, n: nat, u: nat, at: nat)
    requires |raw| == SECTOR * n && u < n && at == off + SECTOR * u
    ensures var f' := HostWrite(f, off, raw);
            |f| <= |f'| && at + SECTOR <= |f'| && f'[at..at + SECTOR] == Part(raw, u)
  {
    HostWriteData(f, off, raw);
    SliceOfSlice(HostWrite(f, off, raw), off, |raw|, SECTOR * u, SECTOR);
  }

  lemma OutsideRun(env: Env, g: Geometry, f: seq<byte>, s: nat, n: nat, raw: seq<byte>, w: nat, t: nat)
    requires g.Valid() && |raw| == SECTOR * n
    requires !(s <= t < s + n) && g.Cluster(t) == g.Cluster(s) && w + g.ClusterSize() <= |f|
    ensures var f' := HostWrite(f, w + SECTOR * g.InCluster(s), raw);
            w + g.ClusterSize() <= |f'| && EntrySector(env, g, f', Plain(w), t) == EntrySector(env, g, f, Plain(w), t)
    ensures !(g.InCluster(s) <= g.InCluster(t) < g.InCluster(s) + n)
  {
    ClusterOffsets(g, s, t);
    HostWriteFrame(f, w + SECTOR * g.InCluster(s), raw, w + SECTOR * g.InCluster(t), SECTOR);
  }

  lemma ClusterOffsets(g: Geometry, s: nat, t: nat)
    requires g.Valid() && g.Cluster(t) == g.Cluster(s)
    ensures t - s == g.InCluster(t) - g.InCluster(s)
  {
    QuotientRemainder(t, g.clusterSectors);
    QuotientRemainder(s, g.clusterSectors);
  }

  /** Before the data is written, the rest of the cluster already holds its residue. */
  lemma UnwrittenSector(env: Env, g: Geometry, m0: Image, m1: Image, s: nat, w: nat, nStart: nat, nEnd: nat, t: nat)
    requires WellFormed(env, g, m0) == true && WellFormed(env, g, m1) == true && s < g.totalSectors
    requires PlainReady(env, g, m0, m1, s, w, nStart, nEnd) == true
    requires t < g.totalSectors && g.Cluster(t) == g.Cluster(s) && !(nStart <= g.InCluster(t) < nEnd)
    requires w + g.ClusterSize() <= |m1.file|
    ensures EntrySector(env, g, m1.file, Plain(w), t) == Residue(env, g, m0, t)
  {
    var e, x := EntryOf(g, m0, s), g.InCluster(t);
    IndexesOfCluster(g, s, t);
    assert EntryOf(g, m0, t) == e;
    g.L1IndexInRange(t);
    assert EntryOk(g, m0.clusters[g.L1Index(t)][g.L2Index(t)], |m0.file|);
    if e.Plain? {
      EntrySectorSame(env, g, m0.file, m1.file, e, t);
    } else {
      assert FreshSector(env, g, m0.file, m1.file, s, e, w, x);
      FreshSectorReads(env, g, m0.file, m1.file, s, e, w, t);
    }
  }

  /** A sector initialised in a new cluster reads as its residue. */
  lemma FreshSectorReads(env: Env, g: Geometry, f: seq<byte>, f': seq<byte>, s: nat, e: Entry, w: nat, t: nat)
    requires g.Valid() && env.Laws() && w + g.ClusterSize() <= |f'| && g.Cluster(t) == g.Cluster(s)
    requires FreshSector(env, g, f, f', s, e, w, g.InCluster(t))
    ensures EntrySector(env, g, f', Plain(w), t) == EntryResidue(env, g, f, e, t)
  {
    ClusterOffsets(g, s, t);
    if e.Free? {
      assert env.CryptLaw(t, Zeros(SECTOR));
    }
  }

  lemma PlainReadyAfter(env: Env, g: Geometry, m0: Image, m: Image, m2: Image, k: nat, w: nat, nStart: nat, nEnd: nat)
    requires WellFormed(env, g, m0) == true && WellFormed(env, g, m) == true && WellFormed(env, g, m2) == true && k < g.totalSectors
    requires m.clusters == m0.clusters && Keeps(g, m0, m, -1, -1)
    requires PlainReady(env, g, m, m2, k, w, nStart, nEnd)
    ensures PlainReady(env, g, m0, m2, k, w, nStart, nEnd)
  {
    var i, j, e := g.L1Index(k), g.L2Index(k), EntryOf(g, m, k);
    g.L1IndexInRange(k);
    KeepsWeaken(g, m0, m, i, j);
    KeepsTrans(g, m0, m, m2, i, j);
    assert !e.Free? ==> SameOn(m0.file, m.file, Start(e), Len(g, e));
    if e.Plain? {
      SameOnTrans(m0.file, m.file, m2.file, w, g.ClusterSize());
    } else {
      FreshFrom(env, g, m0.file, m.file, m2.file, k, e, w, nStart, nEnd);
    }
  }

  lemma FreshFrom(env: Env, g: Geometry, f0: seq<byte>, f: seq<byte>, f2: seq<byte>, k: nat, e: Entry,
                  w: nat, nStart: nat, nEnd: nat)
    requires g.Valid() && (!e.Free? ==> SameOn(f0, f, Start(e), Len(g, e)))
    requires FreshSectors(env, g, f, f2, k, e, w, nStart, nEnd)
    ensures FreshSectors(env, g, f0, f2, k, e, w, nStart, nEnd)
  {
    forall x | 0 <= x < g.clusterSectors && !(nStart <= x < nEnd)
      ensures FreshSector(env, g, f0, f2, k, e, w, x)
    {
      assert FreshSector(env, g, f, f2, k, e, w, x);
    }
  }

  /** `f1` is `f` grown to hold one more cluster at `off`. */
  ghost predicate Grown(g: Geometry, f: seq<byte>, f1: seq<byte>, off: nat)
  {
    && f <= f1 && |f1| % SECTOR == 0
    && 0 < |f| <= off && off % SECTOR == 0 && g.ClusterSize() > 0 && ClusterAligned(g, off)
    && off + g.ClusterSize() <= |f1| <= |f| + 2 * g.ClusterSize() + SECTOR
  }

  lemma CachedWord(g: Geometry, m: Image, offsets: seq<nat>, tables: seq<seq<nat>>, slot: nat, i: nat, j: nat)
    requires Layout(g, m, |m.file|) == true && TablesCached(g, m, offsets, tables)
    requires slot < L2_CACHE_SIZE && i < g.l1Size && j < g.l2Size && m.l1[i] != 0 && offsets[slot] == m.l1[i]
    ensures |tables[slot]| == g.l2Size && tables[slot][j] == EncodeEntry(g, m.clusters[i][j])
    ensures tables[slot][j] == 0 <==> m.clusters[i][j].Free?
    ensures tables[slot][j] >= COMPRESSED_FLAG <==> m.clusters[i][j].Packed?
  {
    assert TableHolds(g, tables[slot], m.clusters[i]);
    assert EntryOk(g, m.clusters[i][j], |m.file|);
    EntryKinds(g, m.clusters[i][j]);
  }

  /** A compressed cluster is not copied up only when every sector of it is written. */
  lemma AllSectorsWritten(env: Env, g: Geometry, f: seq<byte>, f': seq<byte>, k: nat, e: Entry, w: nat, nStart: nat, nEnd: nat)
    requires g.Valid() && !e.Plain? && nStart <= nEnd <= g.clusterSectors
    requires e.Packed? ==> nEnd - nStart >= g.clusterSectors
    requires FreshSectors(env, g, f, f', k, Free, w, nStart, nEnd)
    ensures FreshSectors(env, g, f, f', k, e, w, nStart, nEnd)
  {
  }

  /** What a writer needs: the cluster of `k` is plain at `w`, and only it changed. */
  ghost predicate PlainReady(env: Env, g: Geometry, m: Image, m': Image, k: nat, w: nat, nStart: nat, nEnd: nat)
    requires WellFormed(env, g, m) == true && WellFormed(env, g, m') == true && k < g.totalSectors
  {
    var e := EntryOf(g, m, k);
    && w != 0 && w % SECTOR == 0
    && EntryOf(g, m', k) == Plain(w)
    && Keeps(g, m, m', g.L1Index(k), g.L2Index(k))
    && if e.Plain? then w == e.off && SameOn(m.file, m'.file, w, g.ClusterSize())
       else FreshSectors(env, g, m.file, m'.file, k, e, w, nStart, nEnd)
  }

  predicate ClusterAligned(g: Geometry, off: nat)
    requires g.ClusterSize() > 0
  {
    off % g.ClusterSize() == 0
  }

  /** The new cluster at `w` is initialised outside [nStart, nEnd). */
  ghost predicate FreshSectors(env: Env, g: Geometry, f: seq<byte>, f': seq<byte>, k: nat, e: Entry, w: nat,
                               nStart: nat, nEnd: nat)
  {
    forall x :: 0 <= x < g.clusterSectors && !(nStart <= x < nEnd) ==> FreshSector(env, g, f, f', k, e, w, x)
  }

  ghost predicate FreshSector(env: Env, g: Geometry, f: seq<byte>, f': seq<byte>, k: nat, e: Entry, w: nat, x: nat)
    requires x < g.clusterSectors
  {
    InitialRawDefined(env, g, f, e) && HoldsSector(f', w + SECTOR * x, InitialRaw(env, g, f, k, e, x))
  }

  lemma CopiedSectors(env: Env, g: Geometry, f: seq<byte>, k: nat, e: Entry, off: nat, data: seq<byte>)
    requires g.Valid() && e.Packed? && e.off + e.size <= |f| && Decompress(env, g, f, e) == Some(data)
    requires |f| % SECTOR == 0 && 0 < |f| && off == RoundUp(|f|, g.ClusterSize())
    ensures Grown(g, f, HostWrite(f, off, data), off)
    ensures FreshSectors(env, g, f, HostWrite(f, off, data), k, e, off, 0, 0)
  {
    WriteChangesOnly(f, off, data);
    HostWriteData(f, off, data);
    AlignedToSector(g, off);
    DataSectors(env, g, f, HostWrite(f, off, data), k, e, off, data);
  }

  lemma DataSectors(env: Env, g: Geometry, f: seq<byte>, f': seq<byte>, k: nat, e: Entry, off: nat, data: seq<byte>)
    requires g.Valid() && e.Packed? && e.off + e.size <= |f| && Decompress(env, g, f, e) == Some(data)
    requires off + |data| <= |f'| && f'[off..off + |data|] == data
    ensures FreshSectors(env, g, f, f', k, e, off, 0, 0)
  {
    forall x | 0 <= x < g.clusterSectors
      ensures FreshSector(env, g, f, f', k, e, off, x)
    {
      SliceOfSlice(f', off, |data|, SECTOR * x, SECTOR);
    }
  }

  lemma KeptPlainReady(env: Env, g: Geometry, m: Image, k: nat, nStart: nat, nEnd: nat)
    requires WellFormed(env, g, m) == true && k < g.totalSectors
    requires Keeps(g, m, m, -1, -1) && EntryOf(g, m, k).Plain?
    ensures PlainReady(env, g, m, m, k, EntryOf(g, m, k).off, nStart, nEnd)
  {
    g.L1IndexInRange(k);
    assert EntryOk(g, m.clusters[g.L1Index(k)][g.L2Index(k)], |m.file|);
    KeepsWeaken(g, m, m, g.L1Index(k), g.L2Index(k));
  }

  lemma LinkedPlain(env: Env, g: Geometry, m: Image, f1: seq<byte>, k: nat, i: nat, j: nat, w: nat,
                    nStart: nat, nEnd: nat)
    requires WellFormed(env, g, m) == true
    requires k < g.totalSectors && i == g.L1Index(k) < g.l1Size && j == g.L2Index(k)
    requires m.l1[i] != 0 && !m.clusters[i][j].Plain?
    requires Grown(g, m.file, f1, w) && |f1| < TWO63
    requires FreshSectors(env, g, m.file, f1, k, m.clusters[i][j], w, nStart, nEnd)
    ensures var m2 := StoreEntry(g, m.(file := f1), i, j, Plain(w));
            && WellFormed(env, g, m2)
            && PlainReady(env, g, m, m2, k, w, nStart, nEnd) && |m2.file| == |f1|
  {
    var m1 := m.(file := f1);
    var m2 := StoreEntry(g, m1, i, j, Plain(w));
    PlainClusterLinked(env, g, m, m1, m2, i, j, w);
    FreshAcross(env, g, m.file, f1, m2.file, k, m.clusters[i][j], w, nStart, nEnd);
  }

  lemma FreshAcross(env: Env, g: Geometry, f: seq<byte>, f1: seq<byte>, f2: seq<byte>, k: nat, e: Entry,
                    w: nat, nStart: nat, nEnd: nat)
    requires g.Valid() && SameOn(f1, f2, w, g.ClusterSize()) && FreshSectors(env, g, f, f1, k, e, w, nStart, nEnd)
    ensures FreshSectors(env, g, f, f2, k, e, w, nStart, nEnd)
  {
    forall x | 0 <= x < g.clusterSectors && !(nStart <= x < nEnd)
      ensures FreshSector(env, g, f, f2, k, e, w, x)
    {
      assert FreshSector(env, g, f, f1, k, e, w, x);
      SameOnPart(f1, f2, w, g.ClusterSize(), w + SECTOR * x, SECTOR);
    }
  }

  /** The image once entry `e` has been stored at `(i, j)`. */
  function StoreEntry(g: Geometry, m: Image, i: nat, j: nat, e: Entry): Image
    requires i < |m.l1| && i < |m.clusters| && j < |m.clusters[i]|
  {
    Image(HostWrite(m.file, m.l1[i] + 8 * j, ToBE(8, EncodeEntry(g, e))), m.l1, SetEntry(g, m.clusters, i, j, e))
  }

  lemma RowsKept(g: Geometry, clusters: seq<seq<Entry>>, i: nat, j: nat, e: Entry)
    requires i < |clusters| && j < g.l2Size && forall t :: 0 <= t < |clusters| ==> |clusters[t]| == g.l2Size
    ensures forall t :: 0 <= t < |clusters| ==> |SetEntry(g, clusters, i, j, e)[t]| == g.l2Size
  {
    forall t | 0 <= t < |clusters|
      ensures |SetEntry(g, clusters, i, j, e)[t]| == |clusters[t]|
    {
      assert clusters[t][0] == clusters[t][0];
    }
  }

  lemma StoreEntryWrites(g: Geometry, m: Image, i: nat, j: nat, e: Entry)
    requires Shape(g, m) == true && i < g.l1Size && j < g.l2Size && m.l1[i] + TableBytes(g) <= |m.file|
    requires EncodeEntry(g, e) < TWO64
    ensures Shape(g, StoreEntry(g, m, i, j, e)) && EntryWritten(g, m, StoreEntry(g, m, i, j, e), i, j, e)
  {
    var off, w := m.l1[i] + 8 * j, EncodeEntry(g, e);
    WriteChangesOnly(m.file, off, ToBE(8, w));
    WordRoundTrip(m.file, off, w);
    RowsKept(g, m.clusters, i, j, e);
  }

  function SetWord(tables: seq<seq<nat>>, slot: nat, j: nat, w: nat): seq<seq<nat>>
    requires slot < |tables| && j < |tables[slot]|
  {
    var table: seq<nat> := tables[slot][j := w];
    tables[slot := table]
  }

  /** The cached table follows the entry stored in the file. */
  lemma StoredEntryCached(g: Geometry, m: Image, m': Image, offsets: seq<nat>, tables: seq<seq<nat>>, slot: nat,
                          i: nat, j: nat, e: Entry)
    requires Layout(g, m, |m.file|) == true && TablesCached(g, m, offsets, tables) && Shape(g, m') == true
    requires i < g.l1Size && j < g.l2Size && slot < L2_CACHE_SIZE && m.l1[i] != 0 && offsets[slot] == m.l1[i]
    requires m'.l1 == m.l1 && m'.clusters == SetEntry(g, m.clusters, i, j, e)
    ensures |tables[slot]| == g.l2Size
    ensures TablesCached(g, m', offsets, SetWord(tables, slot, j, EncodeEntry(g, e)))
  {
    assert TableHolds(g, tables[slot], m.clusters[i]);
    var tables' := SetWord(tables, slot, j, EncodeEntry(g, e));
    forall c, t | 0 <= c < L2_CACHE_SIZE && 0 <= t < g.l1Size && offsets[c] != 0 && m'.l1[t] == offsets[c]
      ensures TableHolds(g, tables'[c], m'.clusters[t])
    {
      assert TableHolds(g, tables[c], m.clusters[t]);
      if c == slot && t != i {
        DistinctTables(g, m, i, t);
        assert false;
      } else if c != slot {
        assert offsets[Min(c, slot)] != offsets[Max(c, slot)];
        assert t != i;
        assert m'.clusters[t] == m.clusters[t];
      }
    }
  }

  /** A plain cluster appended past the old end of the file and then linked. */
  lemma PlainClusterLinked(env: Env, g: Geometry, m: Image, m1: Image, m2: Image, i: nat, j: nat, off: nat)
    requires WellFormed(env, g, m) == true && i < g.l1Size && j < g.l2Size && m.l1[i] != 0 && !m.clusters[i][j].Plain?
    requires m1 == m.(file := m1.file) && m.file <= m1.file && |m1.file| % SECTOR == 0 && |m1.file| < TWO63
    requires |m.file| <= off && off % SECTOR == 0 && off + g.ClusterSize() <= |m1.file|
    requires m2 == StoreEntry(g, m1, i, j, Plain(off))
    ensures WellFormed(env, g, m2) && Keeps(g, m, m2, i, j)
    ensures SameOn(m1.file, m2.file, off, g.ClusterSize()) && |m2.file| == |m1.file|
  {
    var e := Plain(off);
    assert TableStored(g, m, i, |m.file|);
    Extend(g, m, |m.file|, m1);
    assert TableStored(g, m1, i, |m.file|);
    StoreEntryWrites(g, m1, i, j, e);
    SetEntryKeepsLayout(g, m1, m2, i, j, e, |m.file|, |m1.file|);
    SetEntryKeepsClusters(g, m1, m2, i, j, e, |m.file|);
    KeepsWeaken(g, m, m1, i, j);
    KeepsTrans(g, m, m1, m2, i, j);
    ChangedOnlyFrame(m1.file, m2.file, m.l1[i] + 8 * j, 8, off, g.ClusterSize());
  }

  lemma KeepsWeaken(g: Geometry, m: Image, m': Image, i: nat, j: nat)
    requires Shape(g, m) == true && Shape(g, m') == true && Keeps(g, m, m', -1, -1)
    ensures Keeps(g, m, m', i, j)
  {
  }

  /** A compressed cluster linked at the end of the file, before its data is written. */
  lemma CompressedClusterLinked(env: Env, g: Geometry, m: Image, m2: Image, i: nat, j: nat, size: nat)
    requires WellFormed(env, g, m) == true && i < g.l1Size && j < g.l2Size && m.l1[i] != 0 && m.clusters[i][j].Free?
    requires 0 < size < g.ClusterSize() && |m.file| < g.offsetLimit && |m.file| + size < TWO63
    requires m2 == StoreEntry(g, m, i, j, Packed(|m.file|, size))
    ensures Layout(g, m2, |m.file| + size)
    ensures Keeps(g, m, m2, i, j) && |m2.file| == |m.file|
  {
    var e := Packed(|m.file|, size);
    EntryRoundTrip(g, e);
    assert TableStored(g, m, i, |m.file|);
    StoreEntryWrites(g, m, i, j, e);
    SetEntryKeepsLayout(g, m, m2, i, j, e, |m.file|, |m.file| + size);
    SetEntryKeepsClusters(g, m, m2, i, j, e, |m.file|);
  }

  ghost predicate HoldsSector(f: seq<byte>, off: nat, data: seq<byte>)
  {
    off + SECTOR <= |f| && f[off..off + SECTOR] == data
  }

  lemma ZeroedSectors(env: Env, g: Geometry, f: seq<byte>, f': seq<byte>, k: nat, off: nat, nStart: nat, nEnd: nat)
    requires g.Valid() && |f| <= off && f' == f + Zeros(off + g.ClusterSize() - |f|)
    requires env.crypt ==> nEnd - nStart >= g.clusterSectors
    requires nStart <= nEnd <= g.clusterSectors
    ensures FreshSectors(env, g, f, f', k, Free, off, nStart, nEnd)
  {
    forall x | 0 <= x < g.clusterSectors && !(nStart <= x < nEnd)
      ensures FreshSector(env, g, f, f', k, Free, off, x)
    {
      assert f'[off + SECTOR * x..off + SECTOR * x + SECTOR] == Zeros(SECTOR);
    }
  }

  lemma EncryptedSectors(env: Env, g: Geometry, f: seq<byte>, f1: seq<byte>, f': seq<byte>, k: nat, off: nat, nStart: nat, nEnd: nat)
    requires g.Valid() && env.crypt && |f| <= off && f <= f1 && off <= |f1|
    requires off <= |f'| && f'[..off] == f1[..off]
    requires EncryptedBefore(env, g, f', off, k - g.InCluster(k), nStart, nEnd, g.clusterSectors)
    ensures f <= f' && FreshSectors(env, g, f, f', k, Free, off, nStart, nEnd)
  {
    assert f == f1[..|f|] == f1[..off][..|f|] == f'[..off][..|f|] == f'[..|f|];
    forall x | 0 <= x < g.clusterSectors && !(nStart <= x < nEnd)
      ensures FreshSector(env, g, f, f', k, Free, off, x)
    {
      assert EncryptedSector(env, f', off, k - g.InCluster(k), x);
    }
  }

  /** The sectors before `x` that lie outside [nStart, nEnd) hold encrypted zeroes. */
  ghost predicate EncryptedBefore(env: Env, g: Geometry, f: seq<byte>, off: nat, first: nat, nStart: nat, nEnd: nat, x: nat)
  {
    forall y :: 0 <= y < x && !(nStart <= y < nEnd) ==> EncryptedSector(env, f, off, first, y)
  }

  ghost predicate EncryptedSector(env: Env, f: seq<byte>, off: nat, first: nat, y: nat)
  {
    HoldsSector(f, off + SECTOR * y, env.encrypt(first + y, Zeros(SECTOR)))
  }

  lemma EncryptOneMore(env: Env, g: Geometry, f: seq<byte>, off: nat, first: nat, nStart: nat, nEnd: nat, x: nat)
    requires env.Laws() && |f| % SECTOR == 0 && x < g.clusterSectors && off + g.ClusterSize() <= |f|
    requires EncryptedBefore(env, g, f, off, first, nStart, nEnd, x)
    ensures var f' := HostWrite(f, off + SECTOR * x, env.encrypt(first + x, Zeros(SECTOR)));
            && |f'| == |f| && f'[..off] == f[..off]
            && EncryptedBefore(env, g, f', off, first, nStart, nEnd, x + 1)
  {
    var data := env.encrypt(first + x, Zeros(SECTOR));
    var f' := HostWrite(f, off + SECTOR * x, data);
    assert env.CryptLaw(first + x, Zeros(SECTOR));
    HostWriteData(f, off + SECTOR * x, data);
    HostWriteLength(f, off + SECTOR * x, data);
    HostWriteFrame(f, off + SECTOR * x, data, 0, off);
    forall y | 0 <= y < x + 1 && !(nStart <= y < nEnd)
      ensures EncryptedSector(env, f', off, first, y)
    {
      if y < x {
        assert EncryptedSector(env, f, off, first, y);
        HostWriteFrame(f, off + SECTOR * x, data, off + SECTOR * y, SECTOR);
      } else {
        assert HoldsSector(f', off + SECTOR * x, data);
      }
    }
  }

  /** Extents do not overlap, so an offset belongs to one compressed cluster. */
  lemma OneClusterPerOffset(env: Env, g: Geometry, m: Image, i: nat, j: nat, data: seq<byte>)
    requires WellFormed(env, g, m) == true && i < g.l1Size && j < g.l2Size && m.clusters[i][j].Packed?
    requires EntryOk(g, m.clusters[i][j], |m.file|) && Decompress(env, g, m.file, m.clusters[i][j]) == Some(data)
    ensures ClusterCached(env, g, m, m.clusters[i][j].off, data)
  {
    forall i', j' | 0 <= i' < g.l1Size && 0 <= j' < g.l2Size && m.clusters[i'][j'].Packed?
                    && m.clusters[i'][j'].off == m.clusters[i][j].off
      ensures i' == i && j' == j
    {
      assert EntryOk(g, m.clusters[i'][j'], |m.file|);
      assert EntriesApart(g, m.clusters[i][j], m.clusters[i'][j']) || (i == i' && j == j');
    }
  }

  lemma NewTableNotCached(g: Geometry, m: Image, offsets: seq<nat>, tables: seq<seq<nat>>, off: nat)
    requires Layout(g, m, |m.file|) == true && TablesCached(g, m, offsets, tables) && |m.file| <= off
    ensures off != 0 && off !in offsets
  {
    forall c | 0 <= c < L2_CACHE_SIZE
      ensures offsets[c] != off
    {
      if offsets[c] != 0 {
        var t :| 0 <= t < g.l1Size && m.l1[t] == offsets[c];
        assert TableStored(g, m, t, |m.file|);
      }
    }
  }

  function NewTableOffset(g: Geometry, m: Image): nat
    requires g.Valid()
  {
    RoundUp(|m.file|, g.ClusterSize())
  }

  /** The image with a zeroed L2 table stored at `off` and linked for level 1 index `i`. */
  function AppendTableAt(g: Geometry, m: Image, i: nat, off: nat): Image
    requires i < |m.l1|
  {
    Image(HostWrite(HostWrite(m.file, g.l1Offset + 8 * i, ToBE(8, off)), off, Zeros(TableBytes(g))),
          m.l1[i := off], m.clusters)
  }

  /** The image with a zeroed L2 table appended for level 1 index `i`. */
  function AppendTable(g: Geometry, m: Image, i: nat): Image
    requires g.Valid() && i < |m.l1|
  {
    AppendTableAt(g, m, i, NewTableOffset(g, m))
  }

  /** The two writes that add a table, to the level 1 entry and to the table itself. */
  lemma AppendTableAdds(g: Geometry, m: Image, i: nat)
    requires Shape(g, m) == true && i < g.l1Size && NewTableOffset(g, m) < TWO63
    ensures var m' := AppendTable(g, m, i);
            && |m'.l1| == g.l1Size && TableAdded(g, m, m', i, m'.l1[i]) && |m.file| <= m'.l1[i]
            && |m'.file| <= |m.file| + TableBytes(g) + g.ClusterSize() + SECTOR
  {
    TableAppended(m.file, g.l1Offset + 8 * i, NewTableOffset(g, m), TableBytes(g));
  }

  /** A word written at `p` and then `n` zeroes behind everything. */
  lemma TableAppended(f: seq<byte>, p: nat, off: nat, n: nat)
    requires |f| % SECTOR == 0 && p + 8 <= |f| <= off < TWO63
    ensures var f' := HostWrite(HostWrite(f, p, ToBE(8, off)), off, Zeros(n));
            && ChangedOnly(f, f', p, 8) && off + n <= |f'| && |f'| <= off + n + SECTOR
            && Word(f', p) == off && f'[off..off + n] == Zeros(n)
  {
    var w, zeros := ToBE(8, off), Zeros(n);
    var f1 := HostWrite(f, p, w);
    var f' := HostWrite(f1, off, zeros);
    WriteChangesOnly(f, p, w);
    WordRoundTrip(f, p, off);
    WriteChangesOnly(f1, off, zeros);
    HostWriteData(f1, off, zeros);
    HostWriteFrame(f1, off, zeros, p, 8);
    WordSame(f1, f', p, 8, p);
  }

  lemma DistinctTables(g: Geometry, m: Image, i: nat, i': nat)
    requires Layout(g, m, |m.file|) == true && i < g.l1Size && i' < g.l1Size && i != i' && m.l1[i] != 0
    ensures m.l1[i] != m.l1[i']
  {
    if m.l1[i'] != 0 {
      assert Apart(m.l1[Min(i, i')], TableBytes(g), m.l1[Max(i, i')], TableBytes(g));
    }
  }

  lemma KeepsSelf(g: Geometry, m: Image)
    requires Layout(g, m, |m.file|) == true
    ensures Keeps(g, m, m, -1, -1)
  {
    forall i, j | 0 <= i < g.l1Size && 0 <= j < g.l2Size && !m.clusters[i][j].Free?
      ensures SameOn(m.file, m.file, Start(m.clusters[i][j]), Len(g, m.clusters[i][j]))
    {
      assert EntryOk(g, m.clusters[i][j], |m.file|);
    }
  }

  lemma TableAddedWellFormed(env: Env, g: Geometry, m: Image, m': Image, i: nat, off: nat)
    requires WellFormed(env, g, m) == true
    requires i < g.l1Size && m.l1[i] == 0 && TableAdded(g, m, m', i, off) && |m.file| <= off && |m'.file| < TWO63
    ensures WellFormed(env, g, m') && Keeps(g, m, m', -1, -1)
  {
    AddTableKeepsLayout(g, m, m', i, off);
  }

  lemma AddedSlot(g: Geometry, m: Image, m': Image, offsets: seq<nat>, offsets': seq<nat>,
                  tables: seq<seq<nat>>, tables': seq<seq<nat>>, slot: nat, i: nat)
    requires Layout(g, m, |m.file|) == true && TablesCached(g, m, offsets, tables)
    requires slot < L2_CACHE_SIZE && i < g.l1Size && m.l1[i] == 0 && |m'.l1| == g.l1Size
    requires TableAdded(g, m, m', i, m'.l1[i]) && |m.file| <= m'.l1[i]
    requires offsets' == offsets[slot := m'.l1[i]] && tables' == tables[slot := Zeros(g.l2Size)]
    ensures Shape(g, m') && TablesCached(g, m', offsets', tables')
  {
    NewTableNotCached(g, m, offsets, tables, m'.l1[i]);
    forall t | 0 <= t < g.l1Size && t != i
      ensures m'.l1[t] != m'.l1[i]
    {
      if m.l1[t] != 0 {
        assert TableStored(g, m, t, |m.file|);
      }
    }
    ReplacedSlot(g, m, m', offsets, offsets', tables, tables', slot, i);
  }

  lemma LoadedSlot(g: Geometry, m: Image, offsets: seq<nat>, offsets': seq<nat>,
                   tables: seq<seq<nat>>, tables': seq<seq<nat>>, slot: nat, i: nat)
    requires Layout(g, m, |m.file|) == true && TablesCached(g, m, offsets, tables)
    requires slot < L2_CACHE_SIZE && i < g.l1Size && m.l1[i] != 0 && m.l1[i] !in offsets
    requires m.l1[i] + TableBytes(g) <= |m.file|
    requires offsets' == offsets[slot := m.l1[i]] && tables' == tables[slot := DecodeTable(g, m.file, m.l1[i])]
    ensures TablesCached(g, m, offsets', tables')
  {
    assert TableStored(g, m, i, |m.file|);
    forall t | 0 <= t < g.l1Size && t != i
      ensures m.l1[t] != m.l1[i]
    {
      DistinctTables(g, m, i, t);
    }
    ReplacedSlot(g, m, m, offsets, offsets', tables, tables', slot, i);
  }

  /** Refilling one slot with the table at `i` keeps the cache coherent. */
  lemma ReplacedSlot(g: Geometry, m: Image, m': Image, offsets: seq<nat>, offsets': seq<nat>,
                     tables: seq<seq<nat>>, tables': seq<seq<nat>>, slot: nat, i: nat)
    requires Shape(g, m) == true && Shape(g, m') == true && TablesCached(g, m, offsets, tables)
    requires slot < L2_CACHE_SIZE && i < g.l1Size && m'.l1[i] != 0 && m'.l1[i] !in offsets
    requires forall t :: 0 <= t < g.l1Size && t != i ==> m'.l1[t] != m'.l1[i]
    requires m'.clusters == m.clusters && m'.l1 == m.l1[i := m'.l1[i]] && m.l1[i] in {0, m'.l1[i]}
    requires offsets' == offsets[slot := m'.l1[i]] && |tables'| == |tables| && tables' == tables[slot := tables'[slot]]
    requires TableHolds(g, tables'[slot], m.clusters[i])
    ensures TablesCached(g, m', offsets', tables')
  {
    forall c | 0 <= c < L2_CACHE_SIZE && offsets'[c] != 0
      ensures offsets'[c] in m'.l1
    {
      if c != slot {
        var t :| 0 <= t < g.l1Size && m.l1[t] == offsets[c];
        assert m'.l1[t] == offsets[c];
      } else {
        assert m'.l1[i] == offsets'[c];
      }
    }
    forall c, t | 0 <= c < L2_CACHE_SIZE && 0 <= t < g.l1Size && offsets'[c] != 0 && m'.l1[t] == offsets'[c]
      ensures TableHolds(g, tables'[c], m'.clusters[t])
    {
      if c != slot {
        assert offsets[c] in offsets;
        assert TableHolds(g, tables[c], m.clusters[t]);
      }
    }
  }
}
