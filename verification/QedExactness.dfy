/**
 * What the consistency check says about the clusters of an image, not about the numbers it gives
 * them: cluster `k` is the one at byte offset k * clusterSize.
 */
module QedExactness {
  import opened Bytes
  import opened QedCheck

  function ClusterCount(g: Geometry): nat
    requires GeometryOk(g)
  {
    RoundUp(g.fileSize, g.clusterSize) / g.clusterSize
  }

  // ----- the references of an image, by true cluster index -----

  function TrueTable(g: Geometry, offset: nat): seq<nat>
    requires GeometryOk(g)
  {
    Span(offset / g.clusterSize, g.tableSize)
  }

  function TrueData(g: Geometry, table: seq<nat>, n: nat): seq<nat>
    requires GeometryOk(g) && n <= |table|
  {
    if n == 0 then []
    else if IsData(table[n - 1]) && ValidCluster(g, table[n - 1]) then
      TrueData(g, table, n - 1) + [table[n - 1] / g.clusterSize]
    else TrueData(g, table, n - 1)
  }

  function TrueEntry(g: Geometry, f: Found, offset: nat, l2: Tables, unreadable: set<nat>): Found
    requires GeometryOk(g)
  {
    if offset == 0 then f
    else if !ValidTable(g, offset) then f.(invalid := f.invalid + 1)
    else
      var marks := f.marks + TrueTable(g, offset);
      if Overlaps(f.marks, TrueTable(g, offset)) then f.(marks := marks)
      else if offset in unreadable then f.(marks := marks, errors := f.errors + 1)
      else
        var table := TableAt(l2, offset);
        Found(marks + TrueData(g, table, |table|), f.invalid + BadEntries(g, table, |table|), f.errors)
  }

  /** The clusters the tables refer to; a table that shares a cluster with earlier ones is not followed. */
  function TrueScan(g: Geometry, l1Offset: nat, l1: seq<nat>, n: nat, l2: Tables, unreadable: set<nat>): Found
    requires GeometryOk(g) && n <= |l1|
  {
    if n == 0 then Found(TrueTable(g, l1Offset), 0, 0)
    else TrueEntry(g, TrueScan(g, l1Offset, l1, n - 1, l2, unreadable), l1[n - 1], l2, unreadable)
  }

  // ----- small images: the numbers are the clusters -----

  lemma NumberOfOffset(g: Geometry, offset: nat)
    requires GeometryOk(g) && offset % g.clusterSize == 0
    ensures var k := offset / g.clusterSize; ToClusters(g, offset) == k + k / (g.clusterSize - 1)
  {
    MultipleOf(offset, g.clusterSize);
    ClusterNumber(g, offset / g.clusterSize);
  }

  lemma CountOfFile(g: Geometry)
    requires GeometryOk(g)
    ensures var n := ClusterCount(g); ToClusters(g, g.fileSize) == n + n / (g.clusterSize - 1)
  {
    var whole := RoundUp(g.fileSize, g.clusterSize);
    NumberOfOffset(g, whole);
    MultipleOf(whole, g.clusterSize);
    RoundsToItself(ClusterCount(g), g.clusterSize);
  }

  /** A valid cluster of the file, with `extra` more that start inside it. */
  lemma IndexInFile(g: Geometry, offset: nat, extra: nat)
    requires GeometryOk(g) && ValidCluster(g, offset) && offset + extra * g.clusterSize < g.fileSize
    ensures g.headerSize <= offset / g.clusterSize && offset / g.clusterSize + extra < ClusterCount(g)
  {
    var unit, whole := g.clusterSize, RoundUp(g.fileSize, g.clusterSize);
    MultipleOf(offset, unit);
    MultipleOf(whole, unit);
    FewerClusters(offset / unit, extra, whole / unit, unit);
    QuotientMonotone(g.headerSize * unit, offset, unit);
    MultipleMod(g.headerSize, unit);
  }

  lemma TableInFile(g: Geometry, offset: nat)
    requires GeometryOk(g) && offset < TWO64 && g.fileSize < TWO63 && ValidTable(g, offset) == true
    ensures g.headerSize <= offset / g.clusterSize && offset / g.clusterSize + g.tableSize <= ClusterCount(g)
  {
    TableEnds(g, offset);
    IndexInFile(g, offset, g.tableSize - 1);
  }

  lemma SmallNumber(g: Geometry, offset: nat)
    requires GeometryOk(g) && ClusterCount(g) < g.clusterSize - 1
    requires offset % g.clusterSize == 0 && offset / g.clusterSize < ClusterCount(g)
    ensures ToClusters(g, offset) == offset / g.clusterSize
  {
    var k := offset / g.clusterSize;
    NumberOfOffset(g, offset);
    SmallQuotient(k, g.clusterSize - 1);
  }

  lemma {:induction false} SmallData(g: Geometry, table: seq<nat>, n: nat)
    requires GeometryOk(g) && ClusterCount(g) < g.clusterSize - 1 && n <= |table|
    ensures DataMarks(g, table, n) == TrueData(g, table, n)
  {
    if n > 0 {
      SmallData(g, table, n - 1);
      if IsData(table[n - 1]) && ValidCluster(g, table[n - 1]) {
        IndexInFile(g, table[n - 1], 0);
        SmallNumber(g, table[n - 1]);
      }
    }
  }

  lemma SmallTable(g: Geometry, offset: nat)
    requires GeometryOk(g) && ClusterCount(g) < g.clusterSize - 1
    requires offset < TWO64 && g.fileSize < TWO63 && ValidTable(g, offset)
    ensures TableMarks(g, offset) == TrueTable(g, offset)
  {
    TableInFile(g, offset);
    SmallNumber(g, offset);
  }

  lemma {:induction false} SmallScan(g: Geometry, l1Offset: nat, l1: seq<nat>, n: nat, l2: Tables, unreadable: set<nat>)
    requires GeometryOk(g) && g.fileSize < TWO63 && n <= |l1| && Offsets64(l1)
    requires l1Offset < TWO64 && ValidTable(g, l1Offset) && ClusterCount(g) < g.clusterSize - 1
    ensures Scan(g, l1Offset, l1, n, l2, unreadable) == TrueScan(g, l1Offset, l1, n, l2, unreadable)
  {
    if n == 0 {
      SmallTable(g, l1Offset);
    } else {
      SmallScan(g, l1Offset, l1, n - 1, l2, unreadable);
      if ValidTable(g, l1[n - 1]) {
        SmallTable(g, l1[n - 1]);
        var table := TableAt(l2, l1[n - 1]);
        SmallData(g, table, |table|);
      }
    }
  }

  /** In an image of fewer than clusterSize - 1 clusters, what the check reports is what the clusters have. */
  lemma SmallImageExact(g: Geometry, l1Offset: nat, l1: seq<nat>, l2: Tables, unreadable: set<nat>)
    requires GeometryOk(g) && g.fileSize < TWO63 && Offsets64(l1)
    requires l1Offset < TWO64 && ValidTable(g, l1Offset) && ClusterCount(g) < g.clusterSize - 1
    ensures var f, t, n := Scan(g, l1Offset, l1, |l1|, l2, unreadable), TrueScan(g, l1Offset, l1, |l1|, l2, unreadable), ClusterCount(g);
            && ToClusters(g, g.fileSize) == n && f.invalid == t.invalid && f.errors == t.errors
            && Surplus(f.marks, ToClusters(g, g.fileSize)) == Surplus(t.marks, n)
            && Unreferenced(f.marks, g.headerSize, ToClusters(g, g.fileSize)) == Unreferenced(t.marks, g.headerSize, n)
  {
    SmallScan(g, l1Offset, l1, |l1|, l2, unreadable);
    CountOfFile(g);
    SmallQuotient(ClusterCount(g), g.clusterSize - 1);
  }

  // ----- counting -----

  lemma {:induction false} UnreferencedOneMore(marks: seq<nat>, x: nat, from: nat, to: nat)
    requires from <= x < to
    ensures Unreferenced(marks + [x], from, to) == Unreferenced(marks, from, to) - if x in marks then 0 else 1
  {
    if x < to - 1 {
      UnreferencedOneMore(marks, x, from, to - 1);
    } else {
      UnreferencedBelow(marks, x, from, to - 1);
    }
  }

  lemma {:induction false} UnreferencedBelow(marks: seq<nat>, x: nat, from: nat, to: nat)
    requires to <= x
    ensures Unreferenced(marks + [x], from, to) == Unreferenced(marks, from, to)
  {
    if from < to {
      UnreferencedBelow(marks, x, from, to - 1);
    }
  }

  lemma {:induction false} AllUnreferenced(from: nat, to: nat)
    requires from <= to
    ensures Unreferenced([], from, to) == to - from
  {
    if from < to {
      AllUnreferenced(from, to - 1);
    }
  }

  predicate Within(marks: seq<nat>, from: nat, to: nat)
  {
    forall i :: 0 <= i < |marks| ==> from <= marks[i] < to
  }

  /** Each reference either is the first to its cluster or repeats another. */
  lemma {:induction false} CountReferences(marks: seq<nat>, from: nat, to: nat)
    requires from <= to && Within(marks, from, to)
    ensures Unreferenced(marks, from, to) + |marks| == to - from + Repeats(marks)
  {
    if marks == [] {
      AllUnreferenced(from, to);
    } else {
      var before, x := marks[..|marks| - 1], marks[|marks| - 1];
      assert marks == before + [x];
      CountReferences(before, from, to);
      UnreferencedOneMore(before, x, from, to);
    }
  }

  /** Every cluster after the header has exactly one reference. */
  predicate ExactlyOnce(marks: seq<nat>, from: nat, to: nat)
  {
    forall c :: from <= c < to ==> References(marks, c) == 1
  }

  lemma {:induction false} OnceMeansNoSurplus(marks: seq<nat>, from: nat, to: nat)
    requires Within(marks, from, to) && ExactlyOnce(marks, from, to)
    ensures Surplus(marks, to) == 0
  {
    SurplusOfOnce(marks, from, to, to);
  }

  lemma {:induction false} SurplusOfOnce(marks: seq<nat>, from: nat, to: nat, n: nat)
    requires Within(marks, from, to) && ExactlyOnce(marks, from, to) && n <= to
    ensures Surplus(marks, n) == 0
  {
    if n > 0 {
      SurplusOfOnce(marks, from, to, n - 1);
      ReferencedIsIn(marks, n - 1);
    }
  }

  lemma {:induction false} OnceMeansNoLeaks(marks: seq<nat>, from: nat, to: nat, n: nat)
    requires ExactlyOnce(marks, from, to) && n <= to
    ensures Unreferenced(marks, from, n) == 0
  {
    if from < n {
      OnceMeansNoLeaks(marks, from, to, n - 1);
      ReferencedIsIn(marks, n - 1);
    }
  }

  lemma OnceMeansCount(marks: seq<nat>, from: nat, to: nat)
    requires from <= to && Within(marks, from, to) && ExactlyOnce(marks, from, to)
    ensures Repeats(marks) == 0 && |marks| == to - from
  {
    OnceMeansNoSurplus(marks, from, to);
    RepeatsAreSurplus(marks, to);
    OnceMeansNoLeaks(marks, from, to, to);
    CountReferences(marks, from, to);
  }

  lemma {:induction false} RepeatsOfParts(a: seq<nat>, b: seq<nat>)
    requires Repeats(a + b) == 0
    ensures Repeats(a) == 0 && !Overlaps(a, b)
  {
    if b == [] {
      assert a + b == a;
    } else {
      var b', x := b[..|b| - 1], b[|b| - 1];
      assert (a + b)[..|a + b| - 1] == a + b';
      assert (a + b)[|a + b| - 1] == x;
      RepeatsOfParts(a, b');
      assert x !in a + b';
    }
  }

  // ----- images that use every cluster -----

  lemma {:induction false} DataLengths(g: Geometry, table: seq<nat>, n: nat)
    requires GeometryOk(g) && n <= |table|
    ensures |DataMarks(g, table, n)| == |TrueData(g, table, n)|
  {
    if n > 0 {
      DataLengths(g, table, n - 1);
    }
  }

  /** As long as neither scan meets a repeated reference, both follow the same tables. */
  lemma {:induction false} SameTablesFollowed(g: Geometry, l1Offset: nat, l1: seq<nat>, n: nat, l2: Tables, unreadable: set<nat>)
    requires GeometryOk(g) && n <= |l1|
    requires Repeats(Scan(g, l1Offset, l1, n, l2, unreadable).marks) == 0
    requires Repeats(TrueScan(g, l1Offset, l1, n, l2, unreadable).marks) == 0
    ensures var f, t := Scan(g, l1Offset, l1, n, l2, unreadable), TrueScan(g, l1Offset, l1, n, l2, unreadable);
            |f.marks| == |t.marks| && f.invalid == t.invalid && f.errors == t.errors
  {
    if n > 0 {
      var f, t := Scan(g, l1Offset, l1, n - 1, l2, unreadable), TrueScan(g, l1Offset, l1, n - 1, l2, unreadable);
      var offset := l1[n - 1];
      var table := TableAt(l2, offset);
      EntryRepeats(g, f, offset, l2, unreadable);
      TrueEntryRepeats(g, t, offset, l2, unreadable);
      SameTablesFollowed(g, l1Offset, l1, n - 1, l2, unreadable);
      DataLengths(g, table, |table|);
    }
  }

  lemma EntryRepeats(g: Geometry, f: Found, offset: nat, l2: Tables, unreadable: set<nat>)
    requires GeometryOk(g) && Repeats(ScanEntry(g, f, offset, l2, unreadable).marks) == 0
    ensures Repeats(f.marks) == 0
    ensures offset != 0 && ValidTable(g, offset) ==> !Overlaps(f.marks, TableMarks(g, offset))
  {
    if offset != 0 && ValidTable(g, offset) {
      var m, table := TableMarks(g, offset), TableAt(l2, offset);
      if !Overlaps(f.marks, m) && offset !in unreadable {
        RepeatsOfParts(f.marks + m, DataMarks(g, table, |table|));
      }
      RepeatsOfParts(f.marks, m);
    }
  }

  lemma TrueEntryRepeats(g: Geometry, f: Found, offset: nat, l2: Tables, unreadable: set<nat>)
    requires GeometryOk(g) && Repeats(TrueEntry(g, f, offset, l2, unreadable).marks) == 0
    ensures Repeats(f.marks) == 0
    ensures offset != 0 && ValidTable(g, offset) ==> !Overlaps(f.marks, TrueTable(g, offset))
  {
    if offset != 0 && ValidTable(g, offset) {
      var m, table := TrueTable(g, offset), TableAt(l2, offset);
      if !Overlaps(f.marks, m) && offset !in unreadable {
        RepeatsOfParts(f.marks + m, TrueData(g, table, |table|));
      }
      RepeatsOfParts(f.marks, m);
    }
  }

  // ----- every reference lies after the header -----

  lemma NumberAhead(g: Geometry, offset: nat)
    requires GeometryOk(g) && offset % g.clusterSize == 0
    ensures offset / g.clusterSize <= ToClusters(g, offset)
  {
    NumberOfOffset(g, offset);
  }

  lemma ClusterWithin(g: Geometry, offset: nat)
    requires GeometryOk(g) && ValidCluster(g, offset)
    ensures g.headerSize <= ToClusters(g, offset) < ToClusters(g, g.fileSize)
    ensures g.headerSize <= offset / g.clusterSize < ClusterCount(g)
  {
    ClusterInBitmap(g, offset, 0);
    IndexInFile(g, offset, 0);
    NumberAhead(g, offset);
  }

  lemma {:induction false} DataWithin(g: Geometry, table: seq<nat>, n: nat)
    requires GeometryOk(g) && n <= |table|
    ensures Within(DataMarks(g, table, n), g.headerSize, ToClusters(g, g.fileSize)) == true
    ensures Within(TrueData(g, table, n), g.headerSize, ClusterCount(g)) == true
  {
    if n > 0 {
      DataWithin(g, table, n - 1);
      if IsData(table[n - 1]) && ValidCluster(g, table[n - 1]) {
        ClusterWithin(g, table[n - 1]);
        WithinMore(DataMarks(g, table, n - 1), [ToClusters(g, table[n - 1])], g.headerSize, ToClusters(g, g.fileSize));
        WithinMore(TrueData(g, table, n - 1), [table[n - 1] / g.clusterSize], g.headerSize, ClusterCount(g));
      }
    }
  }

  lemma WithinMore(a: seq<nat>, b: seq<nat>, from: nat, to: nat)
    requires Within(a, from, to) && Within(b, from, to)
    ensures Within(a + b, from, to) == true
  {
  }

  lemma TableWithin(g: Geometry, offset: nat)
    requires GeometryOk(g) && offset < TWO64 && g.fileSize < TWO63 && ValidTable(g, offset)
    ensures Within(TableMarks(g, offset), g.headerSize, ToClusters(g, g.fileSize)) == true
    ensures Within(TrueTable(g, offset), g.headerSize, ClusterCount(g)) == true
  {
    TableInBitmap(g, offset);
    TableInFile(g, offset);
    NumberAhead(g, offset);
    SpanWithin(ToClusters(g, offset), g.tableSize, g.headerSize, ToClusters(g, g.fileSize));
    SpanWithin(offset / g.clusterSize, g.tableSize, g.headerSize, ClusterCount(g));
  }

  lemma SpanWithin(first: nat, n: nat, from: nat, to: nat)
    requires from <= first && first + n <= to
    ensures Within(Span(first, n), from, to) == true
  {
  }

  lemma {:induction false} ScansWithin(g: Geometry, l1Offset: nat, l1: seq<nat>, n: nat, l2: Tables, unreadable: set<nat>)
    requires GeometryOk(g) && g.fileSize < TWO63 && n <= |l1| && Offsets64(l1)
    requires l1Offset < TWO64 && ValidTable(g, l1Offset)
    ensures Within(Scan(g, l1Offset, l1, n, l2, unreadable).marks, g.headerSize, ToClusters(g, g.fileSize))
    ensures Within(TrueScan(g, l1Offset, l1, n, l2, unreadable).marks, g.headerSize, ClusterCount(g))
  {
    if n == 0 {
      TableWithin(g, l1Offset);
    } else {
      ScansWithin(g, l1Offset, l1, n - 1, l2, unreadable);
      if ValidTable(g, l1[n - 1]) {
        TableWithin(g, l1[n - 1]);
        var table := TableAt(l2, l1[n - 1]);
        DataWithin(g, table, |table|);
      }
    }
  }

  /**
   * An image without invalid offsets whose every cluster after the header is in use exactly once is
   * reported clean exactly when it has fewer than clusterSize - 1 clusters. A larger one is reported
   * to have repeated references or one leaked cluster for every clusterSize - 1 it has.
   */
  lemma FullImageCleanIff(g: Geometry, l1Offset: nat, l1: seq<nat>, l2: Tables, unreadable: set<nat>)
    requires GeometryOk(g) && g.fileSize < TWO63 && Offsets64(l1)
    requires l1Offset < TWO64 && ValidTable(g, l1Offset)
    requires var t := TrueScan(g, l1Offset, l1, |l1|, l2, unreadable);
             t.invalid == 0 && t.errors == 0 && ExactlyOnce(t.marks, g.headerSize, ClusterCount(g))
    ensures var f, n, bits := Scan(g, l1Offset, l1, |l1|, l2, unreadable), ClusterCount(g), ToClusters(g, g.fileSize);
            && (Surplus(f.marks, bits) == 0 && Unreferenced(f.marks, g.headerSize, bits) == 0 <==> n < g.clusterSize - 1)
            && (Surplus(f.marks, bits) == 0 ==>
                  f.invalid == 0 && f.errors == 0 && Unreferenced(f.marks, g.headerSize, bits) == n / (g.clusterSize - 1))
  {
    var f, t := Scan(g, l1Offset, l1, |l1|, l2, unreadable), TrueScan(g, l1Offset, l1, |l1|, l2, unreadable);
    var n, bits := ClusterCount(g), ToClusters(g, g.fileSize);
    TableInFile(g, l1Offset);
    ScansWithin(g, l1Offset, l1, |l1|, l2, unreadable);
    OnceMeansCount(t.marks, g.headerSize, n);
    if Repeats(f.marks) == 0 {
      SameTablesFollowed(g, l1Offset, l1, |l1|, l2, unreadable);
    }
    if n < g.clusterSize - 1 {
      SmallScan(g, l1Offset, l1, |l1|, l2, unreadable);
    }
    FullImageCounts(g, f, t);
  }

  lemma FullImageCounts(g: Geometry, f: Found, t: Found)
    requires GeometryOk(g) && g.headerSize <= ClusterCount(g)
    requires Within(f.marks, g.headerSize, ToClusters(g, g.fileSize)) == true
    requires |t.marks| == ClusterCount(g) - g.headerSize && Repeats(t.marks) == 0
    requires Repeats(f.marks) == 0 ==> |f.marks| == |t.marks|
    requires ClusterCount(g) < g.clusterSize - 1 ==> f == t
    ensures var n, bits := ClusterCount(g), ToClusters(g, g.fileSize);
            && (Surplus(f.marks, bits) == 0 ==> Repeats(f.marks) == 0)
            && (Surplus(f.marks, bits) == 0 && Unreferenced(f.marks, g.headerSize, bits) == 0 <==> n < g.clusterSize - 1)
            && (Surplus(f.marks, bits) == 0 ==> Unreferenced(f.marks, g.headerSize, bits) == n / (g.clusterSize - 1))
  {
    var n, bits := ClusterCount(g), ToClusters(g, g.fileSize);
    CountOfFile(g);
    SmallQuotient(n, g.clusterSize - 1);
    RepeatsAreSurplus(f.marks, bits);
    CountReferences(f.marks, g.headerSize, bits);
  }

  // ----- an instance -----

  /** 4095 clusters of 4096 bytes: the last two hold an empty first-level table, the rest the header. */
  const FULL := Geometry(4096, 2, 4093, 4095 * 4096)

  lemma {:induction false} EmptyRoot(g: Geometry, l1Offset: nat, l1: seq<nat>, n: nat)
    requires GeometryOk(g) && n <= |l1| && forall i :: 0 <= i < |l1| ==> l1[i] == 0
    ensures Scan(g, l1Offset, l1, n, map[], {}) == Found(TableMarks(g, l1Offset), 0, 0)
    ensures TrueScan(g, l1Offset, l1, n, map[], {}) == Found(TrueTable(g, l1Offset), 0, 0)
  {
    if n > 0 {
      EmptyRoot(g, l1Offset, l1, n - 1);
    }
  }

  /** Every cluster of this image is in use exactly once, and the check reports a leak. */
  lemma FullImageReportedLeaking()
    ensures GeometryOk(FULL) && ValidTable(FULL, 4093 * 4096) && ClusterCount(FULL) == 4095
    ensures var l1 := Zeros(1024);
            && ExactlyOnce(TrueScan(FULL, 4093 * 4096, l1, 1024, map[], {}).marks, FULL.headerSize, ClusterCount(FULL))
            && Unreferenced(Scan(FULL, 4093 * 4096, l1, 1024, map[], {}).marks, FULL.headerSize, ToClusters(FULL, FULL.fileSize)) == 1
  {
    var l1Offset := 4093 * 4096;
    EmptyRoot(FULL, l1Offset, Zeros(1024), 1024);
    RoundsToItself(4095, 4096);
    assert TrueTable(FULL, l1Offset) == [4093, 4094];
    OneEach(4093);
    FullImageCleanIff(FULL, l1Offset, Zeros(1024), map[], {});
    NumberOfOffset(FULL, l1Offset);
    assert TableMarks(FULL, l1Offset) == [4093, 4094];
    NoRepeatsInSpan(4093, 2);
    ScansWithin(FULL, l1Offset, Zeros(1024), 1024, map[], {});
    RepeatsAreSurplus(TableMarks(FULL, l1Offset), ToClusters(FULL, FULL.fileSize));
  }

  lemma OneEach(c: nat)
    ensures References([c, c + 1], c) == 1 && References([c, c + 1], c + 1) == 1
  {
    var both, one, none: seq<nat> := [c, c + 1], [c], [];
    assert both[..|both| - 1] == one && one[..|one| - 1] == none;
    assert References(none, c) == 0 && References(none, c + 1) == 0;
    assert References(one, c) == 1 && References(one, c + 1) == 0;
  }
}
