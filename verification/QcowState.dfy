/**
 * The contents of a qcow image as values: the host file, the level 1 table and
 * the cluster map, with the layout invariant and what each update keeps.
 */
module QcowState {
  import opened Bytes
  import opened QcowLayout

  /** Everything the driver calls out to: zlib, AES and the backing image. */
  datatype Env = Env(
    deflate: seq<byte> -> seq<byte>,
    inflate: (nat, seq<byte>) -> Option<seq<byte>>,
    encrypt: (nat, seq<byte>) -> seq<byte>,
    decrypt: (nat, seq<byte>) -> seq<byte>,
    leftover: (nat, seq<byte>, seq<byte>) -> seq<byte>,
    crypt: bool,
    backing: Option<seq<seq<byte>>>) {

    /** Inflating what was deflated from `d` gives `d` back. */
    ghost predicate DeflateLaw(d: seq<byte>)
    {
      |deflate(d)| > 0 && inflate(|d|, deflate(d)) == Some(d)
    }

    /** A deflated stream marks its own end: what lies behind it does not matter. */
    ghost predicate EndLaw(d: seq<byte>, rest: seq<byte>)
    {
      inflate(|d|, deflate(d) + rest) == Some(d)
    }

    /** Inflating happens in a buffer of `n` bytes; when it fails the buffer has been used. */
    ghost predicate LeftoverLaw(n: nat, z: seq<byte>, buffer: seq<byte>)
    {
      |leftover(n, z, buffer)| == n
    }

    /** Decryption inverts encryption, and both keep the sector size. */
    ghost predicate CryptLaw(k: nat, d: seq<byte>)
    {
      |d| == SECTOR ==>
        |encrypt(k, d)| == SECTOR && |decrypt(k, d)| == SECTOR && decrypt(k, encrypt(k, d)) == d
    }

    ghost predicate Laws()
    {
      && (forall d :: DeflateLaw(d))
      && (forall d, rest :: EndLaw(d, rest))
      && (forall k, d :: CryptLaw(k, d))
      && (forall n, z, buffer :: LeftoverLaw(n, z, buffer))
      && (backing.Some? ==> forall k :: 0 <= k < |backing.value| ==> |backing.value[k]| == SECTOR)
    }

    /** A sector of the backing image; reads past its end fail. */
    function Backing(k: nat): Option<seq<byte>>
    {
      if backing.None? then Some(Zeros(SECTOR))
      else if k < |backing.value| then Some(backing.value[k]) else None
    }

    /** A guest sector from its stored form in a plain cluster, and back. */
    function Decode(k: nat, raw: seq<byte>): seq<byte> { if crypt then decrypt(k, raw) else raw }

    function Encode(k: nat, d: seq<byte>): seq<byte> { if crypt then encrypt(k, d) else d }
  }

  /** `clusters[i][j]` is the entry of the cluster at L1 index `i` and L2 index `j`. */
  datatype ImageOf<F, L, C> = Image(file: F, l1: L, clusters: C)

  type Image = ImageOf<seq<byte>, seq<nat>, seq<seq<Entry>>>

  function Start(e: Entry): nat
    requires !e.Free?
  {
    e.off
  }

  function Len(g: Geometry, e: Entry): nat
    requires !e.Free?
  {
    if e.Packed? then e.size else g.ClusterSize()
  }

  predicate Apart(a: nat, n: nat, b: nat, m: nat) { a + n <= b || b + m <= a }

  ghost predicate Shape(g: Geometry, m: Image)
  {
    && g.Valid()
    && |m.l1| == g.l1Size && |m.clusters| == g.l1Size
    && (forall i :: 0 <= i < g.l1Size ==> |m.clusters[i]| == g.l2Size)
    && |m.file| % SECTOR == 0 && g.MetaEnd() <= |m.file|
  }

  function TableBytes(g: Geometry): nat { 8 * g.l2Size }

  /** The file holds the L2 table of `i`, inside the first `end` bytes. */
  ghost predicate TableStored(g: Geometry, m: Image, i: nat, end: nat)
    requires Shape(g, m) == true && i < g.l1Size
  {
    && g.MetaEnd() <= m.l1[i]
    && m.l1[i] + TableBytes(g) <= end
    && m.l1[i] + TableBytes(g) <= |m.file|
    && forall j :: 0 <= j < g.l2Size ==> Word(m.file, m.l1[i] + 8 * j) == EncodeEntry(g, m.clusters[i][j])
  }

  ghost predicate EntryOk(g: Geometry, e: Entry, end: nat)
  {
    !e.Free? ==>
      && Encodable(g, e)
      && g.MetaEnd() <= Start(e)
      && Start(e) % SECTOR == 0
      && 0 < Len(g, e)
      && Start(e) + Len(g, e) <= end
  }

  ghost predicate Stored(g: Geometry, m: Image, end: nat)
    requires Shape(g, m) == true
  {
    && end < TWO63
    && (forall i :: 0 <= i < g.l1Size ==> Word(m.file, g.l1Offset + 8 * i) == m.l1[i])
    && (forall i :: 0 <= i < g.l1Size && m.l1[i] != 0 ==> TableStored(g, m, i, end))
    && (forall i, j :: 0 <= i < g.l1Size && m.l1[i] == 0 && 0 <= j < g.l2Size ==> m.clusters[i][j].Free?)
    && (forall i, j :: 0 <= i < g.l1Size && 0 <= j < g.l2Size ==> EntryOk(g, m.clusters[i][j], end))
  }

  ghost predicate TablesApart(g: Geometry, m: Image)
    requires Shape(g, m) == true
  {
    forall i, i' :: 0 <= i < i' < g.l1Size && m.l1[i] != 0 && m.l1[i'] != 0 ==>
      Apart(m.l1[i], TableBytes(g), m.l1[i'], TableBytes(g))
  }

  ghost predicate EntryApartFromTables(g: Geometry, m: Image, e: Entry)
    requires Shape(g, m) == true
  {
    !e.Free? ==>
      forall i :: 0 <= i < g.l1Size && m.l1[i] != 0 ==> Apart(m.l1[i], TableBytes(g), Start(e), Len(g, e))
  }

  ghost predicate EntriesApart(g: Geometry, e: Entry, e': Entry)
  {
    !e.Free? && !e'.Free? ==> Apart(Start(e), Len(g, e), Start(e'), Len(g, e'))
  }

  /** Tables and clusters lie in [MetaEnd, end) and share no byte. */
  ghost predicate Layout(g: Geometry, m: Image, end: nat)
  {
    && Shape(g, m)
    && Stored(g, m, end)
    && TablesApart(g, m)
    && (forall i, j :: 0 <= i < g.l1Size && 0 <= j < g.l2Size ==> EntryApartFromTables(g, m, m.clusters[i][j]))
    && (forall i, j, i', j' ::
          (0 <= i < g.l1Size && 0 <= j < g.l2Size && 0 <= i' < g.l1Size && 0 <= j' < g.l2Size && (i != i' || j != j'))
          ==> EntriesApart(g, m.clusters[i][j], m.clusters[i'][j']))
  }

  /** Inflation must fill a whole cluster, as `decompress_buffer` checks. */
  function Inflate(env: Env, n: nat, z: seq<byte>): (r: Option<seq<byte>>)
    ensures r.Some? ==> |r.value| == n
  {
    var d := env.inflate(n, z);
    if d.Some? && |d.value| == n then d else None
  }

  function Decompress(env: Env, g: Geometry, f: seq<byte>, e: Entry): (r: Option<seq<byte>>)
    requires e.Packed? && e.off + e.size <= |f|
    ensures r.Some? ==> |r.value| == g.ClusterSize()
  {
    Inflate(env, g.ClusterSize(), f[e.off..e.off + e.size])
  }

  /** The layout invariant of an image between requests. */
  ghost predicate WellFormed(env: Env, g: Geometry, m: Image)
  {
    && env.Laws()
    && Layout(g, m, |m.file|)
  }

  /** What the guest reads at sector `k` of a cluster with entry `e`; None when the read fails. */
  function EntrySector(env: Env, g: Geometry, f: seq<byte>, e: Entry, k: nat): Option<seq<byte>>
    requires g.Valid()
    requires !e.Free? ==> Start(e) + Len(g, e) <= |f|
  {
    var x := g.InCluster(k);
    match e
    case Free =>
      env.Backing(k)
    case Packed(_, _) =>
      (match Decompress(env, g, f, e)
       case Some(d) => Some(d[SECTOR * x..SECTOR * x + SECTOR])
       case None => None)
    case Plain(off) =>
      Some(env.Decode(k, f[off + SECTOR * x..off + SECTOR * x + SECTOR]))
  }

  function EntryOf(g: Geometry, m: Image, k: nat): Entry
    requires Shape(g, m) == true && k < g.totalSectors
  {
    g.L1IndexInRange(k);
    m.clusters[g.L1Index(k)][g.L2Index(k)]
  }

  /** The guest disk: what sector `k` reads as. */
  function GuestSector(env: Env, g: Geometry, m: Image, k: nat): Option<seq<byte>>
    requires WellFormed(env, g, m) == true && k < g.totalSectors
  {
    g.L1IndexInRange(k);
    assert EntryOk(g, m.clusters[g.L1Index(k)][g.L2Index(k)], |m.file|);
    EntrySector(env, g, m.file, EntryOf(g, m, k), k)
  }

  // ----- frames -----

  lemma WordSame(f: seq<byte>, f': seq<byte>, a: nat, n: nat, off: nat)
    requires SameOn(f, f', a, n) && a <= off && off + 8 <= a + n
    ensures Word(f, off) == Word(f', off)
  {
    SameOnPart(f, f', a, n, off, 8);
  }

  lemma EntrySectorSame(env: Env, g: Geometry, f: seq<byte>, f': seq<byte>, e: Entry, k: nat)
    requires g.Valid()
    requires !e.Free? ==> SameOn(f, f', Start(e), Len(g, e))
    ensures EntrySector(env, g, f, e, k) == EntrySector(env, g, f', e, k)
  {
    if e.Plain? {
      var x := g.InCluster(k);
      SameOnPart(f, f', e.off, g.ClusterSize(), e.off + SECTOR * x, SECTOR);
    }
  }

  /** An update left every other cluster's entry and bytes alone. */
  ghost predicate Keeps(g: Geometry, m: Image, m': Image, i0: int, j0: int)
    requires Shape(g, m) == true && Shape(g, m') == true
  {
    forall i, j :: 0 <= i < g.l1Size && 0 <= j < g.l2Size && (i != i0 || j != j0) ==>
      && m'.clusters[i][j] == m.clusters[i][j]
      && (!m.clusters[i][j].Free? ==> SameOn(m.file, m'.file, Start(m.clusters[i][j]), Len(g, m.clusters[i][j])))
  }

  lemma KeepsTrans(g: Geometry, m: Image, m': Image, m'': Image, i0: int, j0: int)
    requires Shape(g, m) == true && Shape(g, m') == true && Shape(g, m'') == true
    requires Keeps(g, m, m', i0, j0) && Keeps(g, m', m'', i0, j0)
    ensures Keeps(g, m, m'', i0, j0)
  {
    forall i, j | 0 <= i < g.l1Size && 0 <= j < g.l2Size && (i != i0 || j != j0) && !m.clusters[i][j].Free?
      ensures SameOn(m.file, m''.file, Start(m.clusters[i][j]), Len(g, m.clusters[i][j]))
    {
      SameOnTrans(m.file, m'.file, m''.file, Start(m.clusters[i][j]), Len(g, m.clusters[i][j]));
    }
  }

  lemma KeepsSector(env: Env, g: Geometry, m: Image, m': Image, i0: int, j0: int, k: nat)
    requires WellFormed(env, g, m) == true && WellFormed(env, g, m') == true && Keeps(g, m, m', i0, j0)
    requires k < g.totalSectors && (g.L1Index(k) != i0 || g.L2Index(k) != j0)
    ensures GuestSector(env, g, m', k) == GuestSector(env, g, m, k)
  {
    g.L1IndexInRange(k);
    EntrySectorSame(env, g, m.file, m'.file, EntryOf(g, m, k), k);
  }

  // ----- updates -----

  /** `f'` differs from `f` at most in the `n` bytes from `off`, and may be longer. */
  ghost predicate ChangedOnly(f: seq<byte>, f': seq<byte>, off: nat, n: nat)
  {
    && |f| <= |f'| && |f'| % SECTOR == 0
    && forall k :: 0 <= k < |f| && !(off <= k < off + n) ==> f'[k] == f[k]
  }

  lemma ChangedOnlyFrame(f: seq<byte>, f': seq<byte>, off: nat, n: nat, a: nat, b: nat)
    requires ChangedOnly(f, f', off, n) && a + b <= |f| && Apart(off, n, a, b)
    ensures SameOn(f, f', a, b)
  {
  }

  lemma TableKept(g: Geometry, m: Image, m': Image, i: nat, end: nat, end': nat)
    requires Shape(g, m) == true && Shape(g, m') == true && i < g.l1Size && TableStored(g, m, i, end) && end <= end'
    requires m'.l1[i] == m.l1[i] && m'.clusters[i] == m.clusters[i]
    requires SameOn(m.file, m'.file, m.l1[i], TableBytes(g))
    ensures TableStored(g, m', i, end')
  {
    forall j | 0 <= j < g.l2Size
      ensures Word(m'.file, m.l1[i] + 8 * j) == EncodeEntry(g, m.clusters[i][j])
    {
      WordSame(m.file, m'.file, m.l1[i], TableBytes(g), m.l1[i] + 8 * j);
    }
  }

  lemma LevelOneKept(g: Geometry, m: Image, m': Image, end: nat)
    requires Shape(g, m) == true && Shape(g, m') == true && Stored(g, m, end) && m'.l1 == m.l1
    requires SameOn(m.file, m'.file, 0, g.MetaEnd())
    ensures forall i :: 0 <= i < g.l1Size ==> Word(m'.file, g.l1Offset + 8 * i) == m'.l1[i]
  {
    forall i | 0 <= i < g.l1Size
      ensures Word(m'.file, g.l1Offset + 8 * i) == m'.l1[i]
    {
      WordSame(m.file, m'.file, 0, g.MetaEnd(), g.l1Offset + 8 * i);
    }
  }

  /** With the same tables and map, only where they are stored has to be checked again. */
  lemma SameMapLayout(g: Geometry, m: Image, m': Image, end: nat, end': nat)
    requires Layout(g, m, end) && Shape(g, m') == true && m'.l1 == m.l1 && m'.clusters == m.clusters
    requires end <= end' < TWO63
    requires SameOn(m.file, m'.file, 0, g.MetaEnd())
    requires forall i :: 0 <= i < g.l1Size && m.l1[i] != 0 ==> TableStored(g, m', i, end')
    ensures Layout(g, m', end')
  {
    LevelOneKept(g, m, m', end);
    forall i, j | 0 <= i < g.l1Size && 0 <= j < g.l2Size
      ensures EntryOk(g, m'.clusters[i][j], end') && EntryApartFromTables(g, m', m'.clusters[i][j])
    {
      assert EntryOk(g, m.clusters[i][j], end);
      assert EntryApartFromTables(g, m, m.clusters[i][j]);
    }
    assert TablesApart(g, m');
  }

  /** Growing the file past what is in use disturbs nothing. */
  lemma Extend(g: Geometry, m: Image, end: nat, m': Image)
    requires Layout(g, m, end) && m' == m.(file := m'.file)
    requires m.file <= m'.file && |m'.file| % SECTOR == 0
    ensures Layout(g, m', end)
    ensures end <= |m.file| ==> Keeps(g, m, m', -1, -1)
  {
    assert SameOn(m.file, m'.file, 0, |m.file|);
    SameOnPart(m.file, m'.file, 0, |m.file|, 0, g.MetaEnd());
    forall i | 0 <= i < g.l1Size && m.l1[i] != 0
      ensures TableStored(g, m', i, end)
    {
      assert TableStored(g, m, i, end);
      SameOnPart(m.file, m'.file, 0, |m.file|, m.l1[i], TableBytes(g));
      TableKept(g, m, m', i, end, end);
    }
    SameMapLayout(g, m, m', end, end);
    if end <= |m.file| {
      forall i, j | 0 <= i < g.l1Size && 0 <= j < g.l2Size && !m.clusters[i][j].Free?
        ensures SameOn(m.file, m'.file, Start(m.clusters[i][j]), Len(g, m.clusters[i][j]))
      {
        assert EntryOk(g, m.clusters[i][j], end);
        SameOnPart(m.file, m'.file, 0, |m.file|, Start(m.clusters[i][j]), Len(g, m.clusters[i][j]));
      }
    }
  }

  /** Rewriting bytes inside the extent of one cluster keeps the layout. */
  lemma WriteInCluster(g: Geometry, m: Image, i0: nat, j0: nat, off: nat, n: nat, m': Image)
    requires Layout(g, m, |m.file|) == true && i0 < g.l1Size && j0 < g.l2Size
    requires var e := m.clusters[i0][j0];
             !e.Free? && Start(e) <= off && off + n <= Start(e) + Len(g, e)
    requires m' == m.(file := m'.file) && |m'.file| == |m.file| && ChangedOnly(m.file, m'.file, off, n)
    ensures Layout(g, m', |m'.file|) && Keeps(g, m, m', i0, j0)
  {
    var e, end := m.clusters[i0][j0], |m.file|;
    assert EntryOk(g, m.clusters[i0][j0], end);
    assert EntryApartFromTables(g, m, m.clusters[i0][j0]);
    ChangedOnlyFrame(m.file, m'.file, off, n, 0, g.MetaEnd());
    forall i | 0 <= i < g.l1Size && m.l1[i] != 0
      ensures TableStored(g, m', i, end)
    {
      assert TableStored(g, m, i, end);
      ChangedOnlyFrame(m.file, m'.file, off, n, m.l1[i], TableBytes(g));
      TableKept(g, m, m', i, end, end);
    }
    SameMapLayout(g, m, m', end, end);
    forall i, j | 0 <= i < g.l1Size && 0 <= j < g.l2Size && (i != i0 || j != j0) && !m.clusters[i][j].Free?
      ensures SameOn(m.file, m'.file, Start(m.clusters[i][j]), Len(g, m.clusters[i][j]))
    {
      assert EntryOk(g, m.clusters[i][j], end);
      assert EntriesApart(g, m.clusters[i][j], m.clusters[i0][j0]);
      ChangedOnlyFrame(m.file, m'.file, off, n, Start(m.clusters[i][j]), Len(g, m.clusters[i][j]));
    }
  }

  /** One entry of the map replaced. */
  function SetEntry(g: Geometry, clusters: seq<seq<Entry>>, i: nat, j: nat, e: Entry): (r: seq<seq<Entry>>)
    requires i < |clusters| && j < |clusters[i]|
    ensures |r| == |clusters|
    ensures forall i', j' :: 0 <= i' < |clusters| && 0 <= j' < |clusters[i']| ==>
              |r[i']| == |clusters[i']| && r[i'][j'] == if i' == i && j' == j then e else clusters[i'][j']
  {
    clusters[i := clusters[i][j := e]]
  }

  /** `m'` is `m` with entry `e` stored at `(i, j)` in the file and in the map. */
  ghost predicate EntryWritten(g: Geometry, m: Image, m': Image, i: nat, j: nat, e: Entry)
    requires Shape(g, m) == true && i < g.l1Size && j < g.l2Size && m.l1[i] + TableBytes(g) <= |m.file|
  {
    && m'.l1 == m.l1 && m'.clusters == SetEntry(g, m.clusters, i, j, e)
    && |m'.file| == |m.file|
    && ChangedOnly(m.file, m'.file, m.l1[i] + 8 * j, 8)
    && Word(m'.file, m.l1[i] + 8 * j) == EncodeEntry(g, e)
  }

  lemma EntryWrittenTables(g: Geometry, m: Image, m': Image, i0: nat, j0: nat, e: Entry, end: nat, end': nat, i: nat)
    requires Layout(g, m, end) && i0 < g.l1Size && j0 < g.l2Size && m.l1[i0] != 0 && end <= end'
    requires TableStored(g, m, i0, end) && EntryWritten(g, m, m', i0, j0, e)
    requires Shape(g, m') == true && i < g.l1Size && m.l1[i] != 0
    ensures TableStored(g, m', i, end')
  {
    var off, f, f' := m.l1[i0] + 8 * j0, m.file, m'.file;
    assert TableStored(g, m, i, end);
    if i != i0 {
      assert Apart(m.l1[i], TableBytes(g), m.l1[i0], TableBytes(g));
      ChangedOnlyFrame(f, f', off, 8, m.l1[i], TableBytes(g));
      assert m'.clusters[i] == m.clusters[i];
      TableKept(g, m, m', i, end, end');
    } else {
      forall j | 0 <= j < g.l2Size
        ensures Word(f', m.l1[i] + 8 * j) == EncodeEntry(g, m'.clusters[i][j])
      {
        if j != j0 {
          ChangedOnlyFrame(f, f', off, 8, m.l1[i] + 8 * j, 8);
          WordSame(f, f', m.l1[i] + 8 * j, 8, m.l1[i] + 8 * j);
        }
      }
    }
  }

  /** Pointing an entry at space past everything in use keeps the layout. */
  lemma SetEntryKeepsLayout(g: Geometry, m: Image, m': Image, i0: nat, j0: nat, e: Entry, end: nat, end': nat)
    requires Layout(g, m, end) && i0 < g.l1Size && j0 < g.l2Size && m.l1[i0] != 0
    requires TableStored(g, m, i0, end) && EntryWritten(g, m, m', i0, j0, e)
    requires !e.Free? && EntryOk(g, e, end') && end <= Start(e) && end' < TWO63
    ensures Layout(g, m', end')
  {
    assert Shape(g, m') by {
      forall i | 0 <= i < g.l1Size
        ensures |m'.clusters[i]| == g.l2Size
      {
        assert m.clusters[i][0] == m.clusters[i][0];
      }
    }
    ChangedOnlyFrame(m.file, m'.file, m.l1[i0] + 8 * j0, 8, 0, g.MetaEnd());
    LevelOneKept(g, m, m', end);
    forall i | 0 <= i < g.l1Size && m.l1[i] != 0
      ensures TableStored(g, m', i, end')
    {
      EntryWrittenTables(g, m, m', i0, j0, e, end, end', i);
    }
    SetEntryExtents(g, m, m', i0, j0, e, end, end');
    assert TablesApart(g, m');
  }

  lemma SetEntryExtents(g: Geometry, m: Image, m': Image, i0: nat, j0: nat, e: Entry, end: nat, end': nat)
    requires Layout(g, m, end) && i0 < g.l1Size && j0 < g.l2Size && m.l1[i0] != 0
    requires Shape(g, m') == true && m'.l1 == m.l1 && m'.clusters == SetEntry(g, m.clusters, i0, j0, e)
    requires !e.Free? && EntryOk(g, e, end') && end <= Start(e)
    ensures forall i, j :: 0 <= i < g.l1Size && 0 <= j < g.l2Size ==>
              EntryOk(g, m'.clusters[i][j], end') && EntryApartFromTables(g, m', m'.clusters[i][j])
              && (m.l1[i] == 0 ==> m'.clusters[i][j].Free?)
    ensures forall i, j, i', j' ::
              (0 <= i < g.l1Size && 0 <= j < g.l2Size && 0 <= i' < g.l1Size && 0 <= j' < g.l2Size && (i != i' || j != j'))
              ==> EntriesApart(g, m'.clusters[i][j], m'.clusters[i'][j'])
  {
    forall i, j | 0 <= i < g.l1Size && 0 <= j < g.l2Size
      ensures EntryOk(g, m'.clusters[i][j], end') && EntryApartFromTables(g, m', m'.clusters[i][j])
      ensures m.l1[i] == 0 ==> m'.clusters[i][j].Free?
    {
      assert EntryOk(g, m.clusters[i][j], end);
      assert EntryApartFromTables(g, m, m.clusters[i][j]);
      if i == i0 && j == j0 {
        forall t | 0 <= t < g.l1Size && m.l1[t] != 0
          ensures Apart(m.l1[t], TableBytes(g), Start(e), Len(g, e))
        {
          assert TableStored(g, m, t, end);
        }
      }
    }
    forall i, j, i', j' | 0 <= i < g.l1Size && 0 <= j < g.l2Size && 0 <= i' < g.l1Size && 0 <= j' < g.l2Size
                          && (i != i' || j != j')
      ensures EntriesApart(g, m'.clusters[i][j], m'.clusters[i'][j'])
    {
      assert EntryOk(g, m.clusters[i][j], end);
      assert EntryOk(g, m.clusters[i'][j'], end);
      assert EntriesApart(g, m.clusters[i][j], m.clusters[i'][j']);
    }
  }

  lemma SetEntryKeepsClusters(g: Geometry, m: Image, m': Image, i0: nat, j0: nat, e: Entry, end: nat)
    requires Layout(g, m, end) && end <= |m.file| && i0 < g.l1Size && j0 < g.l2Size && m.l1[i0] != 0
    requires TableStored(g, m, i0, end) && EntryWritten(g, m, m', i0, j0, e) && Shape(g, m') == true
    ensures Keeps(g, m, m', i0, j0)
  {
    forall i, j | 0 <= i < g.l1Size && 0 <= j < g.l2Size && (i != i0 || j != j0) && !m.clusters[i][j].Free?
      ensures SameOn(m.file, m'.file, Start(m.clusters[i][j]), Len(g, m.clusters[i][j]))
    {
      assert EntryOk(g, m.clusters[i][j], end);
      assert EntryApartFromTables(g, m, m.clusters[i][j]);
      ChangedOnlyFrame(m.file, m'.file, m.l1[i0] + 8 * j0, 8, Start(m.clusters[i][j]), Len(g, m.clusters[i][j]));
    }
  }

  /** `m'` is `m` with a zeroed L2 table appended at `off` and linked from the level 1 table. */
  ghost predicate TableAdded(g: Geometry, m: Image, m': Image, i: nat, off: nat)
    requires Shape(g, m) == true && i < g.l1Size
  {
    && m'.l1 == m.l1[i := off] && m'.clusters == m.clusters
    && off + TableBytes(g) <= |m'.file|
    && ChangedOnly(m.file, m'.file, g.l1Offset + 8 * i, 8)
    && Word(m'.file, g.l1Offset + 8 * i) == off
    && m'.file[off..off + TableBytes(g)] == Zeros(TableBytes(g))
  }

  lemma AddTableKeepsLayout(g: Geometry, m: Image, m': Image, i0: nat, off: nat)
    requires Layout(g, m, |m.file|) == true && i0 < g.l1Size && m.l1[i0] == 0
    requires TableAdded(g, m, m', i0, off) && |m.file| <= off && |m'.file| < TWO63
    ensures Layout(g, m', |m'.file|) && Keeps(g, m, m', -1, -1)
  {
    assert Shape(g, m');
    AddTableWords(g, m, m', i0, off);
    forall i | 0 <= i < g.l1Size && m'.l1[i] != 0
      ensures TableStored(g, m', i, |m'.file|)
    {
      AddTableTables(g, m, m', i0, off, i);
    }
    AddTableExtents(g, m, m', i0, off);
  }

  lemma AddTableWords(g: Geometry, m: Image, m': Image, i0: nat, off: nat)
    requires Layout(g, m, |m.file|) == true && i0 < g.l1Size && m.l1[i0] == 0 && Shape(g, m') == true && TableAdded(g, m, m', i0, off)
    ensures forall i :: 0 <= i < g.l1Size ==> Word(m'.file, g.l1Offset + 8 * i) == m'.l1[i]
  {
    forall i | 0 <= i < g.l1Size
      ensures Word(m'.file, g.l1Offset + 8 * i) == m'.l1[i]
    {
      if i != i0 {
        ChangedOnlyFrame(m.file, m'.file, g.l1Offset + 8 * i0, 8, g.l1Offset + 8 * i, 8);
        WordSame(m.file, m'.file, g.l1Offset + 8 * i, 8, g.l1Offset + 8 * i);
      }
    }
  }

  lemma AddTableTables(g: Geometry, m: Image, m': Image, i0: nat, off: nat, i: nat)
    requires Layout(g, m, |m.file|) == true && i0 < g.l1Size && m.l1[i0] == 0 && Shape(g, m') == true
    requires TableAdded(g, m, m', i0, off) && |m.file| <= off && i < g.l1Size && m'.l1[i] != 0
    ensures TableStored(g, m', i, |m'.file|)
  {
    if i == i0 {
      NewTableIsEmpty(g, m, m', i0, off);
    } else {
      assert TableStored(g, m, i, |m.file|);
      ChangedOnlyFrame(m.file, m'.file, g.l1Offset + 8 * i0, 8, m.l1[i], TableBytes(g));
      TableKept(g, m, m', i, |m.file|, |m'.file|);
    }
  }

  lemma NewTableIsEmpty(g: Geometry, m: Image, m': Image, i0: nat, off: nat)
    requires Layout(g, m, |m.file|) == true && i0 < g.l1Size && m.l1[i0] == 0 && Shape(g, m') == true
    requires TableAdded(g, m, m', i0, off) && |m.file| <= off
    ensures TableStored(g, m', i0, |m'.file|)
  {
    forall j | 0 <= j < g.l2Size
      ensures Word(m'.file, off + 8 * j) == EncodeEntry(g, m'.clusters[i0][j])
    {
      ZeroWord(m'.file, off, g.l2Size, j);
      assert m.clusters[i0][j].Free?;
    }
  }

  lemma ZeroWord(f: seq<byte>, off: nat, n: nat, j: nat)
    requires off + 8 * n <= |f| && f[off..off + 8 * n] == Zeros(8 * n) && j < n
    ensures Word(f, off + 8 * j) == 0
  {
    SliceOfSlice(f, off, 8 * n, 8 * j, 8);
    assert Zeros(8 * n)[8 * j..8 * j + 8] == Zeros(8);
    FromBEZeros(8);
  }

  lemma AddTableExtents(g: Geometry, m: Image, m': Image, i0: nat, off: nat)
    requires Layout(g, m, |m.file|) == true && i0 < g.l1Size && m.l1[i0] == 0 && Shape(g, m') == true
    requires TableAdded(g, m, m', i0, off) && |m.file| <= off
    ensures forall i, j :: 0 <= i < g.l1Size && 0 <= j < g.l2Size ==>
              EntryOk(g, m'.clusters[i][j], |m'.file|) && EntryApartFromTables(g, m', m'.clusters[i][j])
    ensures TablesApart(g, m') && Keeps(g, m, m', -1, -1)
  {
    var p := g.l1Offset + 8 * i0;
    forall i, j | 0 <= i < g.l1Size && 0 <= j < g.l2Size
      ensures EntryOk(g, m'.clusters[i][j], |m'.file|) && EntryApartFromTables(g, m', m'.clusters[i][j])
      ensures !m.clusters[i][j].Free? ==> SameOn(m.file, m'.file, Start(m.clusters[i][j]), Len(g, m.clusters[i][j]))
    {
      var e := m.clusters[i][j];
      assert EntryOk(g, m.clusters[i][j], |m.file|);
      assert EntryApartFromTables(g, m, m.clusters[i][j]);
      if !e.Free? {
        ChangedOnlyFrame(m.file, m'.file, p, 8, Start(e), Len(g, e));
      }
    }
    forall i | 0 <= i < g.l1Size && m.l1[i] != 0
      ensures m.l1[i] + TableBytes(g) <= |m.file|
    {
      assert TableStored(g, m, i, |m.file|);
    }
  }
}
