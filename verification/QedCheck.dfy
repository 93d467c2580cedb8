/** The consistency check of the enhanced disk format: every cluster referenced exactly once. */
module QedCheck {
  import opened Bytes

  datatype Geometry = Geometry(clusterSize: nat, tableSize: nat, headerSize: nat, fileSize: nat)

  predicate GeometryOk(g: Geometry)
  {
    g.clusterSize >= 2 && g.tableSize >= 1 && (g.tableSize - 1) * g.clusterSize < 0x1_0000_0000
  }

  /** The number of clusters in `bytes` bytes as the driver computes it, dividing by one too few. */
  function ToClusters(g: Geometry, bytes: nat): nat
    requires GeometryOk(g)
  {
    RoundUp(bytes, g.clusterSize) / (g.clusterSize - 1)
  }

  predicate ValidCluster(g: Geometry, offset: nat)
    requires GeometryOk(g)
  {
    offset % g.clusterSize == 0 && g.headerSize * g.clusterSize <= offset < g.fileSize
  }

  /** A table's last cluster starts after its first, in 64-bit arithmetic, and both are valid. */
  predicate ValidTable(g: Geometry, offset: nat)
    requires GeometryOk(g)
  {
    var end := (offset + (g.tableSize - 1) * g.clusterSize) % TWO64;
    end > offset && ValidCluster(g, offset) && ValidCluster(g, end)
  }

  /** Valid offsets are the starts of clusters behind the header and inside the file. */
  lemma ValidClusterIff(g: Geometry, offset: nat)
    requires GeometryOk(g)
    ensures ValidCluster(g, offset)
            <==> exists k: nat :: g.headerSize <= k && offset == k * g.clusterSize && k * g.clusterSize < g.fileSize
  {
    var cs := g.clusterSize;
    if ValidCluster(g, offset) {
      var k := offset / cs;
      assert offset == k * cs;
      if k < g.headerSize {
        MulMonotone(k + 1, g.headerSize, cs);
        Distribute(k, 1, cs);
      }
    } else if k: nat :| g.headerSize <= k && offset == k * cs && k * cs < g.fileSize {
      MultipleMod(k, cs);
      MulMonotone(g.headerSize, k, cs);
    }
  }

  /** Tables of more than one cluster are valid where all of their clusters are. */
  lemma ValidTableIff(g: Geometry, offset: nat)
    requires GeometryOk(g) && g.tableSize > 1 && offset < TWO64 && g.fileSize < TWO63
    ensures ValidTable(g, offset) == ClustersValid(g, offset)
  {
    if ValidTable(g, offset) {
      TableClustersValid(g, offset);
    } else if ClustersValid(g, offset) {
      ClustersMakeTable(g, offset);
    }
  }

  /** Each cluster of a table at `offset` is valid. */
  ghost predicate ClustersValid(g: Geometry, offset: nat)
    requires GeometryOk(g)
  {
    forall i: nat :: i < g.tableSize ==> ValidCluster(g, offset + i * g.clusterSize)
  }

  lemma TableClustersValid(g: Geometry, offset: nat)
    requires GeometryOk(g) && offset < TWO64 && g.fileSize < TWO63 && ValidTable(g, offset)
    ensures ClustersValid(g, offset) == true
  {
    TableEnds(g, offset);
    forall i: nat | i < g.tableSize
      ensures ValidCluster(g, offset + i * g.clusterSize)
    {
      MulMonotone(i, g.tableSize - 1, g.clusterSize);
      ShiftedMultiple(offset, i, g.clusterSize);
    }
  }

  lemma ClustersMakeTable(g: Geometry, offset: nat)
    requires GeometryOk(g) && g.tableSize > 1 && offset < TWO64 && g.fileSize < TWO63
    requires ClustersValid(g, offset)
    ensures ValidTable(g, offset)
  {
    var span := (g.tableSize - 1) * g.clusterSize;
    ProductAtLeast(g.tableSize - 1, g.clusterSize);
    assert ValidCluster(g, offset + 0 * g.clusterSize);
    assert ValidCluster(g, offset + (g.tableSize - 1) * g.clusterSize);
    DivModUnique(offset + span, TWO64, 0, offset + span);
  }

  lemma ShiftedMultiple(offset: nat, i: nat, unit: nat)
    requires unit > 0 && offset % unit == 0
    ensures (offset + i * unit) % unit == 0
  {
    var k := offset / unit;
    assert offset == k * unit;
    Distribute(k, i, unit);
    MultipleMod(k + i, unit);
  }

  predicate IsData(entry: nat)
  {
    entry != 0 && entry != 1
  }

  // ----- what a scan of the tables refers to -----

  /** The `n` cluster numbers from `first` on. */
  function Span(first: nat, n: nat): (s: seq<nat>)
    ensures |s| == n && forall i :: 0 <= i < n ==> s[i] == first + i
  {
    seq(n, (i: nat) => first + i)
  }

  function TableMarks(g: Geometry, offset: nat): seq<nat>
    requires GeometryOk(g)
  {
    Span(ToClusters(g, offset), g.tableSize)
  }

  /** Clusters referenced by the first `n` entries of a second-level table. */
  function DataMarks(g: Geometry, table: seq<nat>, n: nat): seq<nat>
    requires GeometryOk(g) && n <= |table|
  {
    if n == 0 then []
    else if IsData(table[n - 1]) && ValidCluster(g, table[n - 1]) then
      DataMarks(g, table, n - 1) + [ToClusters(g, table[n - 1])]
    else DataMarks(g, table, n - 1)
  }

  function BadEntries(g: Geometry, table: seq<nat>, n: nat): nat
    requires GeometryOk(g) && n <= |table|
  {
    if n == 0 then 0
    else BadEntries(g, table, n - 1) + if IsData(table[n - 1]) && !ValidCluster(g, table[n - 1]) then 1 else 0
  }

  predicate Overlaps(marks: seq<nat>, more: seq<nat>)
  {
    exists i :: 0 <= i < |more| && more[i] in marks
  }

  /** References in the order of the scan, invalid offsets, and tables that could not be read. */
  datatype FoundOf<M> = Found(marks: M, invalid: nat, errors: nat)

  type Found = FoundOf<seq<nat>>

  type Tables = map<nat, seq<nat>>

  function TableAt(l2: Tables, offset: nat): seq<nat>
  {
    if offset in l2 then l2[offset] else []
  }

  /** A second-level table is scanned if it is valid, overlaps nothing before it, and can be read. */
  function ScanEntry(g: Geometry, f: Found, offset: nat, l2: Tables, unreadable: set<nat>): Found
    requires GeometryOk(g)
  {
    if offset == 0 then f
    else if !ValidTable(g, offset) then f.(invalid := f.invalid + 1)
    else
      var marks := f.marks + TableMarks(g, offset);
      if Overlaps(f.marks, TableMarks(g, offset)) then f.(marks := marks)
      else if offset in unreadable then f.(marks := marks, errors := f.errors + 1)
      else
        var table := TableAt(l2, offset);
        Found(marks + DataMarks(g, table, |table|), f.invalid + BadEntries(g, table, |table|), f.errors)
  }

  function Scan(g: Geometry, l1Offset: nat, l1: seq<nat>, n: nat, l2: Tables, unreadable: set<nat>): Found
    requires GeometryOk(g) && n <= |l1|
  {
    if n == 0 then Found(TableMarks(g, l1Offset), 0, 0)
    else ScanEntry(g, Scan(g, l1Offset, l1, n - 1, l2, unreadable), l1[n - 1], l2, unreadable)
  }

  // ----- references counted -----

  /** References to clusters that had one before. */
  function Repeats(marks: seq<nat>): nat
  {
    if marks == [] then 0
    else Repeats(marks[..|marks| - 1]) + if marks[|marks| - 1] in marks[..|marks| - 1] then 1 else 0
  }

  function References(marks: seq<nat>, c: nat): nat
  {
    if marks == [] then 0
    else References(marks[..|marks| - 1], c) + if marks[|marks| - 1] == c then 1 else 0
  }

  /** References beyond the first, summed over the clusters below `n`. */
  function Surplus(marks: seq<nat>, n: nat): nat
  {
    if n == 0 then 0
    else Surplus(marks, n - 1) + if References(marks, n - 1) > 0 then References(marks, n - 1) - 1 else 0
  }

  /** Clusters from `from` up to `to` without a reference. */
  function Unreferenced(marks: seq<nat>, from: nat, to: nat): nat
  {
    if to <= from then 0 else Unreferenced(marks, from, to - 1) + if (to - 1) in marks then 0 else 1
  }

  lemma {:induction false} ReferencedIsIn(marks: seq<nat>, c: nat)
    ensures References(marks, c) > 0 <==> c in marks
  {
    if marks != [] {
      ReferencedIsIn(marks[..|marks| - 1], c);
      assert marks == marks[..|marks| - 1] + [marks[|marks| - 1]];
    }
  }

  lemma {:induction false} SurplusOfOneMore(marks: seq<nat>, x: nat, n: nat)
    ensures Surplus(marks + [x], n) == Surplus(marks, n) + if x < n && x in marks then 1 else 0
  {
    assert (marks + [x])[..|marks|] == marks;
    if n > 0 {
      SurplusOfOneMore(marks, x, n - 1);
      ReferencedIsIn(marks, n - 1);
    }
  }

  lemma {:induction false} NoSurplusInEmpty(n: nat)
    ensures Surplus([], n) == 0
  {
    if n > 0 {
      NoSurplusInEmpty(n - 1);
    }
  }

  /** Counting a reference whenever its bit is already set counts all references beyond the first. */
  lemma {:induction false} RepeatsAreSurplus(marks: seq<nat>, n: nat)
    requires forall i :: 0 <= i < |marks| ==> marks[i] < n
    ensures Repeats(marks) == Surplus(marks, n)
  {
    if marks == [] {
      NoSurplusInEmpty(n);
    } else {
      var before, x := marks[..|marks| - 1], marks[|marks| - 1];
      assert marks == before + [x];
      RepeatsAreSurplus(before, n);
      SurplusOfOneMore(before, x, n);
    }
  }

  lemma {:induction false} NoSurplusMeansOnce(marks: seq<nat>, n: nat, c: nat)
    requires Surplus(marks, n) == 0 && c < n
    ensures References(marks, c) <= 1
  {
    if c < n - 1 {
      NoSurplusMeansOnce(marks, n - 1, c);
    }
  }

  lemma {:induction false} NoLeaksMeansReferenced(marks: seq<nat>, from: nat, to: nat, c: nat)
    requires Unreferenced(marks, from, to) == 0 && from <= c < to
    ensures c in marks
  {
    if c < to - 1 {
      NoLeaksMeansReferenced(marks, from, to - 1, c);
    }
  }

  /** No repeated reference and no leak: every cluster after the header is referenced exactly once. */
  lemma CleanMeansExactlyOnce(marks: seq<nat>, header: nat, n: nat, c: nat)
    requires forall i :: 0 <= i < |marks| ==> marks[i] < n
    requires Repeats(marks) == 0 && Unreferenced(marks, header, n) == 0 && header <= c < n
    ensures References(marks, c) == 1
  {
    RepeatsAreSurplus(marks, n);
    NoSurplusMeansOnce(marks, n, c);
    NoLeaksMeansReferenced(marks, header, n, c);
    ReferencedIsIn(marks, c);
  }

  // ----- cluster numbers -----

  /** Cluster `k` gets a number that runs ahead by one every clusterSize - 1 clusters. */
  lemma ClusterNumber(g: Geometry, k: nat)
    requires GeometryOk(g)
    ensures k * g.clusterSize >= 0 && ToClusters(g, k * g.clusterSize) == k + k / (g.clusterSize - 1)
  {
    var cs := g.clusterSize;
    var q, r := k / (cs - 1), k % (cs - 1);
    assert k == q * (cs - 1) + r;
    MultipleMod(k, cs);
    RoundsToItself(k, cs);
    assert k * cs == k * (cs - 1) + k == (k + q) * (cs - 1) + r;
    DivModUnique(k * cs, cs - 1, k + q, r);
  }

  lemma RoundsToItself(k: nat, unit: nat)
    requires unit > 0
    ensures k * unit >= 0 && RoundUp(k * unit, unit) == k * unit
  {
    var r := RoundUp(k * unit, unit);
    assert r == r / unit * unit;
    var j := r / unit;
    if j > k {
      assert (j - k) * unit == r - k * unit;
      ProductAtLeast(j - k, unit);
    }
  }

  lemma SmallQuotient(k: nat, d: nat)
    requires d > 0
    ensures k < d <==> k / d == 0
  {
    if k < d {
      DivModUnique(k, d, 0, k);
    }
  }

  /** Numbers are exact for all clusters of an image of `n` exactly when `n` is below clusterSize - 1. */
  lemma NumbersExactWhenSmall(g: Geometry, n: nat)
    requires GeometryOk(g)
    ensures (forall k: nat :: k <= n ==> ExactNumber(g, k)) <==> n < g.clusterSize - 1
  {
    forall k: nat | k <= n
      ensures ExactNumber(g, k) <==> k < g.clusterSize - 1
    {
      ClusterNumber(g, k);
      SmallQuotient(k, g.clusterSize - 1);
    }
    assert n <= n && (ExactNumber(g, n) <==> n < g.clusterSize - 1);
  }

  predicate ExactNumber(g: Geometry, k: nat)
    requires GeometryOk(g)
  {
    ToClusters(g, k * g.clusterSize) == k
  }

  /** Tables of a single cluster are never valid: the overflow test takes them for overflows. */
  lemma SingleClusterTablesAreRefused(g: Geometry, offset: nat)
    requires GeometryOk(g) && g.tableSize == 1 && offset < TWO64
    ensures !ValidTable(g, offset)
  {
    DivModUnique(offset, TWO64, 0, offset);
  }

  // ----- every reference is inside the bitmap -----

  predicate Offsets64(s: seq<nat>)
  {
    forall i :: 0 <= i < |s| ==> s[i] < TWO64
  }

  lemma MultipleOf(x: nat, unit: nat)
    requires unit > 0 && x % unit == 0
    ensures x == x / unit * unit
  {
  }

  lemma FewerClusters(k: nat, extra: nat, n: nat, unit: nat)
    requires unit > 0 && k * unit + extra * unit < n * unit
    ensures k + extra < n
  {
    assert (k + extra) * unit == k * unit + extra * unit;
    if k + extra >= n {
      MulMonotone(n, k + extra, unit);
    }
  }

  lemma ClusterInBitmap(g: Geometry, offset: nat, extra: nat)
    requires GeometryOk(g) && offset % g.clusterSize == 0 && offset + extra * g.clusterSize < g.fileSize
    ensures ToClusters(g, offset) + extra < ToClusters(g, g.fileSize)
  {
    var unit, whole := g.clusterSize, RoundUp(g.fileSize, g.clusterSize);
    var k, n := offset / unit, whole / unit;
    MultipleOf(offset, unit);
    MultipleOf(whole, unit);
    FewerClusters(k, extra, n, unit);
    ClusterNumber(g, k);
    ClusterNumber(g, n);
    RoundsToItself(n, unit);
    QuotientMonotone(k, n, unit - 1);
  }

  /** A valid table starts at a valid cluster, and its last cluster starts inside the file. */
  lemma TableEnds(g: Geometry, offset: nat)
    requires GeometryOk(g) && offset < TWO64 && g.fileSize < TWO63 && ValidTable(g, offset)
    ensures ValidCluster(g, offset) && offset + (g.tableSize - 1) * g.clusterSize < g.fileSize
  {
    NoOverflow(offset, (g.tableSize - 1) * g.clusterSize);
  }

  lemma NoOverflow(offset: nat, span: nat)
    requires offset < TWO64 && span < 0x1_0000_0000 && (offset + span) % TWO64 > offset
    ensures (offset + span) % TWO64 == offset + span
  {
  }

  lemma TableInBitmap(g: Geometry, offset: nat)
    requires GeometryOk(g) && offset < TWO64 && g.fileSize < TWO63 && ValidTable(g, offset) == true
    ensures forall i :: 0 <= i < |TableMarks(g, offset)| ==> TableMarks(g, offset)[i] < ToClusters(g, g.fileSize)
    ensures ToClusters(g, offset) + g.tableSize <= ToClusters(g, g.fileSize)
  {
    TableEnds(g, offset);
    ClusterInBitmap(g, offset, g.tableSize - 1);
  }

  predicate InBitmap(g: Geometry, marks: seq<nat>)
    requires GeometryOk(g)
  {
    forall i :: 0 <= i < |marks| ==> marks[i] < ToClusters(g, g.fileSize)
  }

  lemma {:induction false} DataInBitmap(g: Geometry, table: seq<nat>, n: nat)
    requires GeometryOk(g) && n <= |table|
    ensures InBitmap(g, DataMarks(g, table, n))
  {
    if n > 0 {
      DataInBitmap(g, table, n - 1);
      if IsData(table[n - 1]) && ValidCluster(g, table[n - 1]) {
        ClusterInBitmap(g, table[n - 1], 0);
      }
    }
  }

  /** No reference the scan marks lies outside the bitmap of the file's clusters. */
  lemma {:induction false} ScanInBitmap(g: Geometry, l1Offset: nat, l1: seq<nat>, n: nat, l2: Tables, unreadable: set<nat>)
    requires GeometryOk(g) && g.fileSize < TWO63 && n <= |l1| && Offsets64(l1)
    requires l1Offset < TWO64 && ValidTable(g, l1Offset)
    ensures InBitmap(g, Scan(g, l1Offset, l1, n, l2, unreadable).marks)
  {
    if n == 0 {
      TableInBitmap(g, l1Offset);
    } else {
      ScanInBitmap(g, l1Offset, l1, n - 1, l2, unreadable);
      if ValidTable(g, l1[n - 1]) {
        TableInBitmap(g, l1[n - 1]);
        var table := TableAt(l2, l1[n - 1]);
        DataInBitmap(g, table, |table|);
      }
    }
  }

  // ----- what fixing leaves behind -----

  function FixedEntry(g: Geometry, entry: nat): nat
    requires GeometryOk(g)
  {
    if IsData(entry) && !ValidCluster(g, entry) then 0 else entry
  }

  function FixedTable(g: Geometry, table: seq<nat>): (t: seq<nat>)
    requires GeometryOk(g)
    ensures |t| == |table| && forall i :: 0 <= i < |t| ==> t[i] == FixedEntry(g, table[i])
  {
    seq(|table|, i requires 0 <= i < |table| => FixedEntry(g, table[i]))
  }

  function FixedRoot(g: Geometry, l1: seq<nat>): (t: seq<nat>)
    requires GeometryOk(g)
    ensures |t| == |l1|
    ensures forall i :: 0 <= i < |t| ==> t[i] == if l1[i] != 0 && !ValidTable(g, l1[i]) then 0 else l1[i]
  {
    seq(|l1|, i requires 0 <= i < |l1| => if l1[i] != 0 && !ValidTable(g, l1[i]) then 0 else l1[i])
  }

  /** Whether the scan goes through the table of entry `k`. */
  predicate Scanned(g: Geometry, l1Offset: nat, l1: seq<nat>, k: nat, l2: Tables, unreadable: set<nat>)
    requires GeometryOk(g) && k < |l1|
  {
    && l1[k] != 0 && ValidTable(g, l1[k]) && l1[k] !in unreadable
    && !Overlaps(Scan(g, l1Offset, l1, k, l2, unreadable).marks, TableMarks(g, l1[k]))
  }

  /** The tables on disk once the first `n` entries are dealt with and what was scanned is fixed. */
  function FixedTables(g: Geometry, l1Offset: nat, l1: seq<nat>, n: nat, l2: Tables, unreadable: set<nat>): Tables
    requires GeometryOk(g) && n <= |l1|
  {
    if n == 0 then l2
    else
      var t := FixedTables(g, l1Offset, l1, n - 1, l2, unreadable);
      var table := TableAt(t, l1[n - 1]);
      if Scanned(g, l1Offset, l1, n - 1, l2, unreadable) && BadEntries(g, table, |table|) > 0
      then t[l1[n - 1] := FixedTable(g, table)] else t
  }

  lemma {:induction false} MarksOnlyGrow(g: Geometry, l1Offset: nat, l1: seq<nat>, k: nat, n: nat, l2: Tables,
                                         unreadable: set<nat>)
    requires GeometryOk(g) && k <= n <= |l1|
    ensures forall c :: c in Scan(g, l1Offset, l1, k, l2, unreadable).marks
                        ==> c in Scan(g, l1Offset, l1, n, l2, unreadable).marks
    ensures k < n && Scanned(g, l1Offset, l1, k, l2, unreadable)
            ==> Overlaps(Scan(g, l1Offset, l1, n, l2, unreadable).marks, TableMarks(g, l1[k]))
    decreases n - k
  {
    if k < n {
      var f, m := Scan(g, l1Offset, l1, k, l2, unreadable), TableMarks(g, l1[k]);
      var next := Scan(g, l1Offset, l1, k + 1, l2, unreadable);
      assert next == ScanEntry(g, f, l1[k], l2, unreadable);
      MarksOnlyGrow(g, l1Offset, l1, k + 1, n, l2, unreadable);
      if Scanned(g, l1Offset, l1, k, l2, unreadable) {
        assert m[0] in next.marks by {
          assert next.marks[|f.marks|] == m[0];
        }
      }
    }
  }

  /** Fixing tables scanned so far has not touched a table that overlaps none of them. */
  lemma {:induction false} OtherTablesUntouched(g: Geometry, l1Offset: nat, l1: seq<nat>, n: nat, l2: Tables,
                                                unreadable: set<nat>, offset: nat)
    requires GeometryOk(g) && n <= |l1|
    requires !Overlaps(Scan(g, l1Offset, l1, n, l2, unreadable).marks, TableMarks(g, offset))
    ensures TableAt(FixedTables(g, l1Offset, l1, n, l2, unreadable), offset) == TableAt(l2, offset)
  {
    if n > 0 {
      MarksOnlyGrow(g, l1Offset, l1, n - 1, n, l2, unreadable);
      OtherTablesUntouched(g, l1Offset, l1, n - 1, l2, unreadable, offset);
    }
  }

  lemma {:induction false} NothingToFix(g: Geometry, table: seq<nat>, n: nat)
    requires GeometryOk(g) && n <= |table| && BadEntries(g, table, n) == 0
    ensures forall i :: 0 <= i < n ==> FixedEntry(g, table[i]) == table[i]
  {
    if n > 0 {
      NothingToFix(g, table, n - 1);
    }
  }

  lemma {:induction false} ScannedTablesAreFixed(g: Geometry, l1Offset: nat, l1: seq<nat>, k: nat, n: nat, l2: Tables,
                                                 unreadable: set<nat>)
    requires GeometryOk(g) && k < n <= |l1| && Scanned(g, l1Offset, l1, k, l2, unreadable)
    ensures TableAt(FixedTables(g, l1Offset, l1, n, l2, unreadable), l1[k]) == FixedTable(g, TableAt(l2, l1[k]))
  {
    if k == n - 1 {
      OtherTablesUntouched(g, l1Offset, l1, k, l2, unreadable, l1[k]);
      var table := TableAt(l2, l1[k]);
      if BadEntries(g, table, |table|) == 0 {
        NothingToFix(g, table, |table|);
        assert FixedTable(g, table) == table;
      }
    } else {
      MarksOnlyGrow(g, l1Offset, l1, k, n - 1, l2, unreadable);
      ScannedTablesAreFixed(g, l1Offset, l1, k, n - 1, l2, unreadable);
    }
  }

  lemma {:induction false} FixedTableIsClean(g: Geometry, table: seq<nat>, n: nat)
    requires GeometryOk(g) && n <= |table|
    ensures BadEntries(g, FixedTable(g, table), n) == 0
    ensures DataMarks(g, FixedTable(g, table), n) == DataMarks(g, table, n)
  {
    if n > 0 {
      FixedTableIsClean(g, table, n - 1);
    }
  }

  lemma {:induction false} RecheckUpTo(g: Geometry, l1Offset: nat, l1: seq<nat>, n: nat, l2: Tables, unreadable: set<nat>)
    requires GeometryOk(g) && n <= |l1|
    ensures var f := Scan(g, l1Offset, l1, n, l2, unreadable);
            Scan(g, l1Offset, FixedRoot(g, l1), n, FixedTables(g, l1Offset, l1, |l1|, l2, unreadable), unreadable)
            == Found(f.marks, 0, f.errors)
  {
    if n > 0 {
      RecheckUpTo(g, l1Offset, l1, n - 1, l2, unreadable);
      if Scanned(g, l1Offset, l1, n - 1, l2, unreadable) {
        ScannedTablesAreFixed(g, l1Offset, l1, n - 1, |l1|, l2, unreadable);
        var table := TableAt(l2, l1[n - 1]);
        FixedTableIsClean(g, table, |table|);
      }
    }
  }

  /** A check after a fixing run refers to the same clusters and finds no invalid offset. */
  lemma RecheckFindsNothingInvalid(g: Geometry, l1Offset: nat, l1: seq<nat>, l2: Tables, unreadable: set<nat>)
    requires GeometryOk(g)
    ensures var f := Scan(g, l1Offset, l1, |l1|, l2, unreadable);
            Scan(g, l1Offset, FixedRoot(g, l1), |l1|, FixedTables(g, l1Offset, l1, |l1|, l2, unreadable), unreadable)
            == Found(f.marks, 0, f.errors)
  {
    RecheckUpTo(g, l1Offset, l1, |l1|, l2, unreadable);
  }

  // ----- the check -----

  lemma {:induction false} RepeatsAppend(marks: seq<nat>, x: nat)
    ensures Repeats(marks + [x]) == Repeats(marks) + if x in marks then 1 else 0
  {
    assert (marks + [x])[..|marks|] == marks;
  }

  lemma SpanGrows(marks: seq<nat>, first: nat, i: nat)
    ensures Span(first, i + 1) == Span(first, i) + [first + i]
    ensures (marks + Span(first, i)) + [first + i] == marks + Span(first, i + 1)
    ensures first + i in marks + Span(first, i) <==> first + i in marks
    ensures Overlaps(marks, Span(first, i + 1)) <==> Overlaps(marks, Span(first, i)) || first + i in marks
  {
    assert Span(first, i + 1) == Span(first, i) + [first + i];
    var small, large := Span(first, i), Span(first, i + 1);
    assert large[i] == first + i;
    if Overlaps(marks, small) {
      var j :| 0 <= j < |small| && small[j] in marks;
      assert large[j] in marks;
    }
    if Overlaps(marks, large) {
      var j :| 0 <= j < |large| && large[j] in marks;
      assert j < i ==> small[j] in marks;
    }
  }

  /** Of the first `i` clusters from `first`, `found` were marked before. */
  ghost predicate Counted(marks: seq<nat>, first: nat, i: nat, found: nat)
  {
    && found + Repeats(marks) == Repeats(marks + Span(first, i))
    && (found == 0 <==> !Overlaps(marks, Span(first, i)))
  }

  lemma CountNone(marks: seq<nat>, first: nat)
    ensures Counted(marks, first, 0, 0) == true && marks + Span(first, 0) == marks
  {
    assert marks + Span(first, 0) == marks;
  }

  lemma CountNext(marks: seq<nat>, first: nat, i: nat, found: nat)
    requires Counted(marks, first, i, found)
    ensures var hit := first + i in marks + Span(first, i);
            Counted(marks, first, i + 1, if hit then found + 1 else found) == true
    ensures (marks + Span(first, i)) + [first + i] == marks + Span(first, i + 1)
  {
    SpanGrows(marks, first, i);
    RepeatsAppend(marks + Span(first, i), first + i);
  }

  /** What the first `i` entries of a table come to while it is being checked in place. */
  ghost predicate TableUpTo(g: Geometry, was: seq<nat>, i: nat, fix: bool, now: seq<nat>)
  {
    && GeometryOk(g) && i <= |was| == |now|
    && (forall k :: 0 <= k < |was| ==> now[k] == if fix && k < i then FixedEntry(g, was[k]) else was[k])
  }

  ghost predicate RootUpTo(g: Geometry, was: seq<nat>, i: nat, fix: bool, now: seq<nat>)
  {
    && GeometryOk(g) && i <= |was| == |now|
    && (forall k :: 0 <= k < |was| ==> now[k] == if fix && k < i then FixedRoot(g, was)[k] else was[k])
  }

  lemma RootDone(g: Geometry, was: seq<nat>, fix: bool, now: seq<nat>)
    requires RootUpTo(g, was, |was|, fix, now)
    ensures now == if fix then FixedRoot(g, was) else was
  {
  }

  /** What a valid entry adds to the scan, and to the fixed tables. */
  lemma ScanOverlapped(g: Geometry, l1Offset: nat, l1: seq<nat>, i: nat, l2: Tables, unreadable: set<nat>)
    requires GeometryOk(g) && i < |l1| && l1[i] != 0 && ValidTable(g, l1[i])
    requires Overlaps(Scan(g, l1Offset, l1, i, l2, unreadable).marks, TableMarks(g, l1[i]))
    ensures var f := Scan(g, l1Offset, l1, i, l2, unreadable);
            Scan(g, l1Offset, l1, i + 1, l2, unreadable) == f.(marks := f.marks + TableMarks(g, l1[i]))
    ensures FixedTables(g, l1Offset, l1, i + 1, l2, unreadable) == FixedTables(g, l1Offset, l1, i, l2, unreadable)
  {
  }

  lemma ScanUnread(g: Geometry, l1Offset: nat, l1: seq<nat>, i: nat, l2: Tables, unreadable: set<nat>)
    requires GeometryOk(g) && i < |l1| && l1[i] != 0 && ValidTable(g, l1[i]) && l1[i] in unreadable
    requires !Overlaps(Scan(g, l1Offset, l1, i, l2, unreadable).marks, TableMarks(g, l1[i]))
    ensures var f := Scan(g, l1Offset, l1, i, l2, unreadable);
            Scan(g, l1Offset, l1, i + 1, l2, unreadable) == Found(f.marks + TableMarks(g, l1[i]), f.invalid, f.errors + 1)
    ensures FixedTables(g, l1Offset, l1, i + 1, l2, unreadable) == FixedTables(g, l1Offset, l1, i, l2, unreadable)
  {
  }

  lemma ScanFollowed(g: Geometry, l1Offset: nat, l1: seq<nat>, i: nat, l2: Tables, unreadable: set<nat>)
    requires GeometryOk(g) && i < |l1| && l1[i] != 0 && ValidTable(g, l1[i]) && l1[i] !in unreadable
    requires !Overlaps(Scan(g, l1Offset, l1, i, l2, unreadable).marks, TableMarks(g, l1[i]))
    ensures var f, table := Scan(g, l1Offset, l1, i, l2, unreadable), TableAt(l2, l1[i]);
            Scan(g, l1Offset, l1, i + 1, l2, unreadable)
            == Found((f.marks + TableMarks(g, l1[i])) + DataMarks(g, table, |table|), f.invalid + BadEntries(g, table, |table|), f.errors)
    ensures var fixed, table := FixedTables(g, l1Offset, l1, i, l2, unreadable), TableAt(l2, l1[i]);
            && TableAt(fixed, l1[i]) == table
            && FixedTables(g, l1Offset, l1, i + 1, l2, unreadable)
               == if BadEntries(g, table, |table|) > 0 then fixed[l1[i] := FixedTable(g, table)] else fixed
  {
    OtherTablesUntouched(g, l1Offset, l1, i, l2, unreadable, l1[i]);
  }

  class Checker {
    const g: Geometry
    const l1Offset: nat
    const fix: bool
    const unreadable: set<nat>
    /** The first-level table in memory, and the second-level tables on disk. */
    const l1: array<nat>
    var l2: Tables
    const used: array<bool>
    var corruptions: nat
    var corruptionsFixed: nat
    var leaks: nat
    var checkErrors: nat
    var needCheck: bool

    constructor (g: Geometry, l1Offset: nat, l1: array<nat>, l2: Tables, unreadable: set<nat>, fix: bool, needCheck: bool)
      requires GeometryOk(g)
      ensures this.g == g && this.l1Offset == l1Offset && this.l1 == l1 && this.l2 == l2 && this.fix == fix
      ensures this.unreadable == unreadable && this.needCheck == needCheck
      ensures corruptions == corruptionsFixed == leaks == checkErrors == 0
      ensures fresh(used) && used.Length == ToClusters(g, g.fileSize) && UsedIs([])
    {
      this.g, this.l1Offset, this.l1, this.l2 := g, l1Offset, l1, l2;
      this.unreadable, this.fix, this.needCheck := unreadable, fix, needCheck;
      used := new bool[ToClusters(g, g.fileSize)](_ => false);
      corruptions, corruptionsFixed, leaks, checkErrors := 0, 0, 0, 0;
    }

    predicate UsedIs(marks: seq<nat>)
      reads used
    {
      forall c :: 0 <= c < used.Length ==> (used[c] <==> c in marks)
    }

    /** Marks one cluster, and tells whether it was marked before. */
    method SetBit(cluster: nat, ghost marks: seq<nat>) returns (hit: bool)
      requires UsedIs(marks) && cluster < used.Length
      modifies used
      ensures UsedIs(marks + [cluster]) == true && (hit <==> cluster in marks)
    {
      hit := used[cluster];
      used[cluster] := true;
    }

    /** Marks `n` clusters; each that was marked before is a corruption. */
    method SetUsedClusters(offset: nat, n: nat, ghost marks: seq<nat>) returns (ok: bool)
      requires GeometryOk(g) && UsedIs(marks) && ToClusters(g, offset) + n <= used.Length
      modifies used, `corruptions
      ensures var span := Span(ToClusters(g, offset), n);
              && UsedIs(marks + span) == true && (ok <==> !Overlaps(marks, span))
              && corruptions + Repeats(marks) == old(corruptions) + Repeats(marks + span)
    {
      ok := MarkSpan(ToClusters(g, offset), n, marks);
    }

    method MarkSpan(first: nat, n: nat, ghost marks: seq<nat>) returns (ok: bool)
      requires UsedIs(marks) && first + n <= used.Length
      modifies used, `corruptions
      ensures UsedIs(marks + Span(first, n)) == true && (ok <==> !Overlaps(marks, Span(first, n)))
      ensures corruptions + Repeats(marks) == old(corruptions) + Repeats(marks + Span(first, n))
    {
      var cluster, left, found: nat := first, n, 0;
      ghost var i: nat := 0;
      CountNone(marks, first);
      while left != 0
        invariant cluster == first + i && left == n - i && i <= n && corruptions == old(corruptions)
        invariant UsedIs(marks + Span(first, i)) == true
        invariant Counted(marks, first, i, found) == true
      {
        CountNext(marks, first, i, found);
        left := left - 1;
        var hit := SetBit(cluster, marks + Span(first, i));
        if hit {
          found := found + 1;
        }
        cluster, i := cluster + 1, i + 1;
      }
      corruptions := corruptions + found;
      ok := found == 0;
    }

    /** One entry of a second-level table: skipped, counted as invalid, or marked. */
    method CheckClusterOffset(offset: nat) returns (valid: bool)
      requires GeometryOk(g)
      ensures valid <==> ValidCluster(g, offset)
    {
      if offset % g.clusterSize != 0 {
        return false;
      }
      valid := offset >= g.headerSize * g.clusterSize && offset < g.fileSize;
    }

    method CheckTableOffset(offset: nat) returns (valid: bool)
      requires GeometryOk(g)
      ensures valid <==> ValidTable(g, offset)
    {
      var end := (offset + (g.tableSize - 1) * g.clusterSize) % TWO64;
      if end <= offset {
        return false;
      }
      valid := CheckClusterOffset(offset);
      if valid {
        valid := CheckClusterOffset(end);
      }
    }

    method CheckL2Entry(table: array<nat>, i: nat, ghost marks: seq<nat>, ghost was: seq<nat>) returns (bad: bool)
      requires GeometryOk(g) && used.Length == ToClusters(g, g.fileSize)
      requires i < table.Length && TableUpTo(g, was, i, fix, table[..])
      requires UsedIs(marks + DataMarks(g, was, i)) == true
      modifies table, used, `corruptions, `corruptionsFixed
      ensures TableUpTo(g, was, i + 1, fix, table[..]) == true
      ensures UsedIs(marks + DataMarks(g, was, i + 1)) == true
      ensures bad <==> IsData(was[i]) && !ValidCluster(g, was[i])
      ensures corruptions + Repeats(marks + DataMarks(g, was, i))
           == old(corruptions) + Repeats(marks + DataMarks(g, was, i + 1)) + (if bad && !fix then 1 else 0)
      ensures corruptionsFixed == old(corruptionsFixed) + (if bad && fix then 1 else 0)
    {
      var offset := table[i];
      ghost var so := marks + DataMarks(g, was, i);
      assert offset == was[i];
      bad := false;
      if offset == 0 || offset == 1 {
        return;
      }
      var valid := CheckClusterOffset(offset);
      if !valid {
        if fix {
          table[i] := 0;
          corruptionsFixed := corruptionsFixed + 1;
        } else {
          corruptions := corruptions + 1;
        }
        return true;
      }
      ClusterInBitmap(g, offset, 0);
      var _ := SetUsedClusters(offset, 1, so);
      assert so + Span(ToClusters(g, offset), 1) == marks + DataMarks(g, was, i + 1);
    }

    /** Counts, and with `fix` clears, the invalid entries of a second-level table. */
    method CheckL2Table(table: array<nat>, ghost marks: seq<nat>) returns (invalid: nat)
      requires GeometryOk(g) && used.Length == ToClusters(g, g.fileSize) && UsedIs(marks)
      modifies table, used, `corruptions, `corruptionsFixed
      ensures var was := old(table[..]);
              var all := marks + DataMarks(g, was, |was|);
              && UsedIs(all) == true && invalid == BadEntries(g, was, |was|)
              && table[..] == (if fix then FixedTable(g, was) else was)
              && corruptions + Repeats(marks) == old(corruptions) + Repeats(all) + (if fix then 0 else invalid)
              && corruptionsFixed == old(corruptionsFixed) + (if fix then invalid else 0)
    {
      ghost var was := table[..];
      invalid := 0;
      assert marks + [] == marks;
      for i := 0 to table.Length
        invariant UsedIs(marks + DataMarks(g, was, i)) == true && invalid == BadEntries(g, was, i)
        invariant TableUpTo(g, was, i, fix, table[..]) == true
        invariant corruptions + Repeats(marks)
               == old(corruptions) + Repeats(marks + DataMarks(g, was, i)) + (if fix then 0 else invalid)
        invariant corruptionsFixed == old(corruptionsFixed) + (if fix then invalid else 0)
      {
        var bad := CheckL2Entry(table, i, marks, was);
        if bad {
          invalid := invalid + 1;
        }
      }
      TableDone(g, was, fix, table[..]);
    }

    /** Whether the counters and the bitmap say what the scan so far has found. */
    ghost predicate Agrees(f: Found)
      reads this, used
    {
      && UsedIs(f.marks) && checkErrors == f.errors
      && corruptions == Repeats(f.marks) + (if fix then 0 else f.invalid)
      && corruptionsFixed == (if fix then f.invalid else 0)
    }

    /** Reads, checks and, if need be, writes back the second-level table at `offset`. */
    method CheckTableAt(offset: nat, ghost f: Found)
      requires GeometryOk(g) && used.Length == ToClusters(g, g.fileSize)
      requires Agrees(f) && offset !in unreadable
      modifies this, used
      ensures var table := TableAt(old(l2), offset);
              && Agrees(Found(f.marks + DataMarks(g, table, |table|), f.invalid + BadEntries(g, table, |table|), f.errors)) == true
              && l2 == if fix && BadEntries(g, table, |table|) > 0 then old(l2)[offset := FixedTable(g, table)] else old(l2)
      ensures leaks == old(leaks) && needCheck == old(needCheck)
    {
      var stored := TableAt(l2, offset);
      var table := new nat[|stored|](i requires 0 <= i < |stored| => stored[i]);
      assert table[..] == stored;
      var invalid := CheckL2Table(table, f.marks);
      if invalid > 0 && fix {
        l2 := l2[offset := table[..]];
      }
    }

    /** One entry of the first-level table. */
    method CheckL1Entry(i: nat, ghost f: Found, ghost was: seq<nat>, ghost tables: Tables)
      requires GeometryOk(g) && g.fileSize < TWO63 && used.Length == ToClusters(g, g.fileSize)
      requires i < |was| == l1.Length && Offsets64(was)
      requires f == Scan(g, l1Offset, was, i, tables, unreadable) && Agrees(f)
      requires RootUpTo(g, was, i, fix, l1[..])
      requires l2 == if fix then FixedTables(g, l1Offset, was, i, tables, unreadable) else tables
      modifies this, used, l1
      ensures Agrees(Scan(g, l1Offset, was, i + 1, tables, unreadable)) == true
      ensures RootUpTo(g, was, i + 1, fix, l1[..]) == true
      ensures l2 == if fix then FixedTables(g, l1Offset, was, i + 1, tables, unreadable) else tables
      ensures leaks == old(leaks) && needCheck == old(needCheck)
    {
      var offset := l1[i];
      assert offset == was[i];
      if offset == 0 {
        return;
      }
      var valid := CheckTableOffset(offset);
      if !valid {
        if fix {
          l1[i] := 0;
          corruptionsFixed := corruptionsFixed + 1;
        } else {
          corruptions := corruptions + 1;
        }
        return;
      }
      Descend(i, offset, f, was, tables);
    }

    /** Marks the clusters of a second-level table. */
    method MarkTable(offset: nat, ghost f: Found) returns (ok: bool)
      requires GeometryOk(g) && g.fileSize < TWO63 && used.Length == ToClusters(g, g.fileSize)
      requires offset < TWO64 && ValidTable(g, offset) && Agrees(f) == true
      modifies used, `corruptions
      ensures Agrees(f.(marks := f.marks + TableMarks(g, offset))) == true
      ensures ok <==> !Overlaps(f.marks, TableMarks(g, offset))
    {
      TableInBitmap(g, offset);
      ok := SetUsedClusters(offset, g.tableSize, f.marks);
    }

    /** A valid entry: its table's clusters are marked, and it is checked unless it overlaps others. */
    method Descend(i: nat, offset: nat, ghost f: Found, ghost was: seq<nat>, ghost tables: Tables)
      requires GeometryOk(g) && g.fileSize < TWO63 && used.Length == ToClusters(g, g.fileSize)
      requires i < |was| && Offsets64(was) && offset == was[i] && offset != 0 && ValidTable(g, offset)
      requires f == Scan(g, l1Offset, was, i, tables, unreadable) && Agrees(f) == true
      requires l2 == if fix then FixedTables(g, l1Offset, was, i, tables, unreadable) else tables
      modifies this, used
      ensures Agrees(Scan(g, l1Offset, was, i + 1, tables, unreadable)) == true
      ensures l2 == if fix then FixedTables(g, l1Offset, was, i + 1, tables, unreadable) else tables
      ensures leaks == old(leaks) && needCheck == old(needCheck)
    {
      var ok := MarkTable(offset, f);
      if !ok {
        ScanOverlapped(g, l1Offset, was, i, tables, unreadable);
        return;
      }
      if offset in unreadable {
        ScanUnread(g, l1Offset, was, i, tables, unreadable);
        checkErrors := checkErrors + 1;
        return;
      }
      ScanFollowed(g, l1Offset, was, i, tables, unreadable);
      CheckTableAt(offset, Found(f.marks + TableMarks(g, offset), f.invalid, f.errors));
    }

    /** The clusters of the first-level table itself. */
    method MarkRoot()
      requires GeometryOk(g) && g.fileSize < TWO63 && used.Length == ToClusters(g, g.fileSize)
      requires l1Offset < TWO64 && ValidTable(g, l1Offset)
      requires UsedIs([]) && corruptions == corruptionsFixed == checkErrors == 0
      modifies used, `corruptions
      ensures Agrees(Found(TableMarks(g, l1Offset), 0, 0)) == true
    {
      TableInBitmap(g, l1Offset);
      assert [] + TableMarks(g, l1Offset) == TableMarks(g, l1Offset);
      var _ := SetUsedClusters(l1Offset, g.tableSize, []);
      NoRepeatsInSpan(ToClusters(g, l1Offset), g.tableSize);
    }

    /** Descends the tables. */
    method CheckL1Table() returns (ok: bool)
      requires GeometryOk(g) && g.fileSize < TWO63 && used.Length == ToClusters(g, g.fileSize)
      requires Offsets64(l1[..]) && l1Offset < TWO64 && ValidTable(g, l1Offset)
      requires UsedIs([]) && corruptions == corruptionsFixed == checkErrors == 0
      modifies this, used, l1
      ensures var f := Scan(g, l1Offset, old(l1[..]), |old(l1[..])|, old(l2), unreadable);
              Agrees(f) == true && (ok <==> f.errors == 0)
      ensures l1[..] == if fix then FixedRoot(g, old(l1[..])) else old(l1[..])
      ensures l2 == if fix then FixedTables(g, l1Offset, old(l1[..]), |old(l1[..])|, old(l2), unreadable) else old(l2)
      ensures leaks == old(leaks) && needCheck == old(needCheck)
    {
      ghost var was, tables := l1[..], l2;
      MarkRoot();
      for i := 0 to l1.Length
        invariant Agrees(Scan(g, l1Offset, was, i, tables, unreadable)) == true
        invariant RootUpTo(g, was, i, fix, l1[..]) == true
        invariant l2 == if fix then FixedTables(g, l1Offset, was, i, tables, unreadable) else tables
        invariant leaks == old(leaks) && needCheck == old(needCheck)
      {
        CheckL1Entry(i, Scan(g, l1Offset, was, i, tables, unreadable), was, tables);
      }
      ok := checkErrors == 0;
      RootDone(g, was, fix, l1[..]);
    }

    method CheckForLeaks(ghost marks: seq<nat>)
      requires UsedIs(marks)
      modifies `leaks
      ensures leaks == old(leaks) + Unreferenced(marks, g.headerSize, used.Length)
    {
      var i := g.headerSize;
      while i < used.Length
        invariant i >= g.headerSize
        invariant i <= used.Length || i == g.headerSize
        invariant leaks == old(leaks) + Unreferenced(marks, g.headerSize, i)
      {
        if !used[i] {
          leaks := leaks + 1;
        }
        i := i + 1;
      }
      if i > used.Length {
        NoneUnreferenced(marks, g.headerSize, used.Length);
      }
    }

    /**
     * The whole check. With all tables readable it reports as corruptions the invalid offsets
     * (unless it clears them) and the references beyond the first to any cluster, and as leaks
     * the clusters after the header without a reference.
     */
    method Check() returns (ok: bool)
      requires GeometryOk(g) && g.fileSize < TWO63 && used.Length == ToClusters(g, g.fileSize)
      requires Offsets64(l1[..]) && l1Offset < TWO64 && ValidTable(g, l1Offset)
      requires UsedIs([]) && corruptions == corruptionsFixed == leaks == checkErrors == 0
      modifies this, used, l1
      ensures var f := Scan(g, l1Offset, old(l1[..]), |old(l1[..])|, old(l2), unreadable);
              && (ok <==> f.errors == 0) && checkErrors == f.errors
              && corruptions == Surplus(f.marks, used.Length) + (if fix then 0 else f.invalid)
              && corruptionsFixed == (if fix then f.invalid else 0)
              && leaks == (if ok then Unreferenced(f.marks, g.headerSize, used.Length) else 0)
      ensures l1[..] == if fix then FixedRoot(g, old(l1[..])) else old(l1[..])
      ensures l2 == if fix then FixedTables(g, l1Offset, old(l1[..]), |old(l1[..])|, old(l2), unreadable) else old(l2)
      ensures needCheck == (old(needCheck) && !(ok && fix && corruptions == 0))
    {
      ghost var was, tables := l1[..], l2;
      ghost var f := Scan(g, l1Offset, was, |was|, tables, unreadable);
      ScanInBitmap(g, l1Offset, was, |was|, tables, unreadable);
      RepeatsAreSurplus(f.marks, used.Length);
      ok := CheckL1Table();
      if ok {
        CheckForLeaks(f.marks);
        if fix {
          MarkClean();
        }
      }
    }

    method MarkClean()
      modifies `needCheck
      ensures needCheck == (old(needCheck) && (corruptions > 0 || checkErrors > 0))
    {
      if corruptions > 0 || checkErrors > 0 {
        return;
      }
      if !needCheck {
        return;
      }
      needCheck := false;
    }
  }

  lemma {:induction false} NoneUnreferenced(marks: seq<nat>, from: nat, to: nat)
    requires to <= from
    ensures Unreferenced(marks, from, to) == 0 == Unreferenced(marks, from, from)
  {
  }

  lemma {:induction false} NoRepeatsInSpan(first: nat, n: nat)
    ensures Repeats(Span(first, n)) == 0
  {
    if n > 0 {
      NoRepeatsInSpan(first, n - 1);
      assert Span(first, n)[..n - 1] == Span(first, n - 1);
    }
  }

  lemma TableDone(g: Geometry, was: seq<nat>, fix: bool, now: seq<nat>)
    requires TableUpTo(g, was, |was|, fix, now)
    ensures now == if fix then FixedTable(g, was) else was
  {
  }
}
