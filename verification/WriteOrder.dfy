/** What batching does to the order of overlapping writes, and to their flags. */
module WriteOrder {
  import opened Bytes
  import opened WriteMerge

  // ----- order -----

  /** The part of the disk a request writes. */
  datatype Extent = Extent(sector: nat, count: nat)

  predicate Fits(xs: seq<Extent>, ds: seq<seq<byte>>)
  {
    |ds| == |xs| && forall i :: 0 <= i < |xs| ==> |ds[i]| == xs[i].count * SECTOR
  }

  /** The requests for the extents `xs`, with data `ds`. */
  function Batch(xs: seq<Extent>, ds: seq<seq<byte>>): (ws: seq<Write>)
    requires Fits(xs, ds)
    ensures |ws| == |xs|
    ensures forall i :: 0 <= i < |ws| ==> ws[i] == Write(xs[i].sector, xs[i].count, [ds[i]])
  {
    seq(|xs|, i requires 0 <= i < |xs| => Write(xs[i].sector, xs[i].count, [ds[i]]))
  }

  predicate Holds(x: Extent, address: nat)
  {
    x.sector * SECTOR <= address < x.sector * SECTOR + x.count * SECTOR
  }

  /** `order` lists the places 0 .. |order| - 1, and `place` says where it lists each. */
  predicate Permutation(order: seq<nat>, place: seq<nat>)
  {
    && |place| == |order|
    && (forall i :: 0 <= i < |order| ==> order[i] < |order| && place[order[i]] == i)
    && (forall k :: 0 <= k < |place| ==> place[k] < |place| && order[place[k]] == k)
  }

  function Reordered<T>(s: seq<T>, order: seq<nat>): (r: seq<T>)
    requires |order| == |s| && forall i :: 0 <= i < |order| ==> order[i] < |s|
    ensures |r| == |s| && forall i :: 0 <= i < |r| ==> r[i] == s[order[i]]
  {
    seq(|s|, i requires 0 <= i < |s| => s[order[i]])
  }

  /** The last of the extents that holds `address`, if any does. */
  function LastWriter(xs: seq<Extent>, address: nat): (k: int)
    ensures -1 <= k < |xs| && (k >= 0 ==> Holds(xs[k], address))
    ensures forall i :: k < i < |xs| ==> !Holds(xs[i], address)
  {
    if xs == [] then -1
    else if Holds(xs[|xs| - 1], address) then |xs| - 1
    else LastWriter(xs[..|xs| - 1], address)
  }

  lemma SinglePiece(d: seq<byte>)
    ensures Flat([d]) == d
  {
    assert [d][1..] == [] && Flat([]) == [];
  }

  /** The byte on the disk is that of the last writer. */
  lemma {:induction false} AfterIsLastWriter(xs: seq<Extent>, ds: seq<seq<byte>>, address: nat)
    requires Fits(xs, ds)
    ensures var k := LastWriter(xs, address);
            After(Batch(xs, ds), address) == if k < 0 then None else Some(ds[k][address - xs[k].sector * SECTOR])
  {
    if xs != [] {
      var n := |xs| - 1;
      SinglePiece(ds[n]);
      AfterIsLastWriter(xs[..n], ds[..n], address);
      assert Batch(xs, ds)[..n] == Batch(xs[..n], ds[..n]);
    }
  }

  /**
   * Sorting swaps the requests at sorted places i < j, and it shows at `address`: both write it, the
   * first was given as the last to do so, the second is now the last.
   */
  predicate VisibleInversion(xs: seq<Extent>, order: seq<nat>, i: nat, j: nat, address: nat)
    requires |order| == |xs| && (forall i :: 0 <= i < |order| ==> order[i] < |xs|) && i < |xs| && j < |xs|
  {
    && i < j && order[i] > order[j]
    && Holds(xs[order[i]], address) && Holds(xs[order[j]], address)
    && (forall k :: order[i] < k < |xs| ==> !Holds(xs[k], address))
    && (forall k :: j < k < |xs| ==> !Holds(xs[order[k]], address))
  }

  ghost predicate Unseen(xs: seq<Extent>, order: seq<nat>)
    requires |order| == |xs| && forall i :: 0 <= i < |order| ==> order[i] < |xs|
  {
    forall i: nat, j: nat, address: nat :: i < |xs| && j < |xs| ==> !VisibleInversion(xs, order, i, j, address)
  }

  ghost predicate SameForAllData(xs: seq<Extent>, order: seq<nat>)
    requires |order| == |xs| && forall i :: 0 <= i < |order| ==> order[i] < |xs|
  {
    forall ds :: Fits(xs, ds) ==> SameDisk(Reordered(Batch(xs, ds), order), Batch(xs, ds))
  }

  lemma ReorderedBatch(xs: seq<Extent>, ds: seq<seq<byte>>, order: seq<nat>, place: seq<nat>)
    requires Fits(xs, ds) && |order| == |xs| && Permutation(order, place)
    ensures Fits(Reordered(xs, order), Reordered(ds, order))
    ensures Reordered(Batch(xs, ds), order) == Batch(Reordered(xs, order), Reordered(ds, order))
  {
  }

  /** Data that shows an inversion: one request writes ones, all others write twos. */
  function Marked(xs: seq<Extent>, k: nat): (ds: seq<seq<byte>>)
    ensures Fits(xs, ds)
    ensures forall i, b :: 0 <= i < |xs| && 0 <= b < |ds[i]| ==> ds[i][b] == if i == k then 1 else 2
  {
    seq(|xs|, i requires 0 <= i < |xs| => seq(xs[i].count * SECTOR, _ => if i == k then 1 else 2))
  }

  lemma VisibleMatters(xs: seq<Extent>, order: seq<nat>, place: seq<nat>, i: nat, j: nat, address: nat)
    requires |order| == |xs| && Permutation(order, place) && i < |xs| && j < |xs|
    requires VisibleInversion(xs, order, i, j, address)
    ensures !SameForAllData(xs, order)
  {
    var ds := Marked(xs, order[i]);
    ReorderedBatch(xs, ds, order, place);
    AfterIsLastWriter(xs, ds, address);
    AfterIsLastWriter(Reordered(xs, order), Reordered(ds, order), address);
    VisibleWriters(xs, order, i, j, address);
  }

  lemma VisibleWriters(xs: seq<Extent>, order: seq<nat>, i: nat, j: nat, address: nat)
    requires |order| == |xs| && (forall i :: 0 <= i < |order| ==> order[i] < |xs|) && i < |xs| && j < |xs|
    requires VisibleInversion(xs, order, i, j, address)
    ensures LastWriter(xs, address) == order[i] && LastWriter(Reordered(xs, order), address) == j
  {
    var ys := Reordered(xs, order);
    assert ys[j] == xs[order[j]];
    forall k | j < k < |ys|
      ensures !Holds(ys[k], address)
    {
      assert ys[k] == xs[order[k]];
    }
  }

  lemma HiddenDoesNot(xs: seq<Extent>, ds: seq<seq<byte>>, order: seq<nat>, place: seq<nat>, address: nat)
    requires |order| == |xs| && Permutation(order, place) && Fits(xs, ds) && Unseen(xs, order)
    ensures After(Reordered(Batch(xs, ds), order), address) == After(Batch(xs, ds), address)
  {
    var ys, es := Reordered(xs, order), Reordered(ds, order);
    ReorderedBatch(xs, ds, order, place);
    AfterIsLastWriter(xs, ds, address);
    AfterIsLastWriter(ys, es, address);
    var k, j := LastWriter(xs, address), LastWriter(ys, address);
    if k >= 0 {
      assert ys[place[k]] == xs[k];
    }
    if j >= 0 {
      assert ys[j] == xs[order[j]];
    }
    if k >= 0 && j >= 0 && order[j] != k {
      assert order[place[k]] == k;
      forall l | j < l < |xs|
        ensures !Holds(xs[order[l]], address)
      {
        assert ys[l] == xs[order[l]];
      }
      assert VisibleInversion(xs, order, place[k], j, address);
    }
  }

  /**
   * Requests may be put in another order, whatever their data, exactly when no two that overlap are
   * swapped, save where a third that comes after both in both orders hides what they wrote.
   */
  lemma OrderIff(xs: seq<Extent>, order: seq<nat>, place: seq<nat>)
    requires |order| == |xs| && Permutation(order, place)
    ensures SameForAllData(xs, order) <==> Unseen(xs, order)
  {
    if Unseen(xs, order) {
      forall ds, address: nat | Fits(xs, ds)
        ensures After(Reordered(Batch(xs, ds), order), address) == After(Batch(xs, ds), address)
      {
        HiddenDoesNot(xs, ds, order, place, address);
      }
    } else {
      var i: nat, j: nat, address: nat :| i < |xs| && j < |xs| && VisibleInversion(xs, order, i, j, address);
      VisibleMatters(xs, order, place, i, j, address);
    }
  }

  /** No two requests that overlap are swapped: enough for every batch, and needed for two requests. */
  ghost predicate NoSwaps(xs: seq<Extent>, order: seq<nat>)
    requires |order| == |xs| && forall i :: 0 <= i < |order| ==> order[i] < |xs|
  {
    forall i, j, address: nat :: 0 <= i < j < |xs| && order[i] > order[j] ==>
      !(Holds(xs[order[i]], address) && Holds(xs[order[j]], address))
  }

  lemma SwapsOfTwo(xs: seq<Extent>, order: seq<nat>, place: seq<nat>)
    requires |order| == |xs| && Permutation(order, place)
    ensures NoSwaps(xs, order) ==> SameForAllData(xs, order)
    ensures |xs| == 2 && SameForAllData(xs, order) ==> NoSwaps(xs, order)
  {
    OrderIff(xs, order, place);
    if |xs| == 2 && Unseen(xs, order) {
      forall i, j, address: nat | 0 <= i < j < |xs| && order[i] > order[j]
        ensures !(Holds(xs[order[i]], address) && Holds(xs[order[j]], address))
      {
        assert !VisibleInversion(xs, order, i, j, address);
      }
    }
  }

  predicate InOrder(xs: seq<Extent>)
  {
    |xs| <= 1 || (InOrder(xs[..|xs| - 1]) && xs[|xs| - 2].sector <= xs[|xs| - 1].sector)
  }

  lemma {:induction false} InOrderSorted(xs: seq<Extent>, ds: seq<seq<byte>>)
    requires Fits(xs, ds) && InOrder(xs)
    ensures Sorted(Batch(xs, ds)) && AllOk(Batch(xs, ds))
  {
    forall i | 0 <= i < |xs|
      ensures WriteOk(Batch(xs, ds)[i])
    {
      SinglePiece(ds[i]);
    }
    if |xs| > 1 {
      var n := |xs| - 1;
      InOrderSorted(xs[..n], ds[..n]);
      assert Butlast(Batch(xs, ds)) == Batch(xs[..n], ds[..n]);
    }
  }

  /** The whole batch, sorted and merged, leaves what the requests as given would, under the same condition. */
  lemma BatchAsGivenIff(xs: seq<Extent>, order: seq<nat>, place: seq<nat>, maxTransfer: nat)
    requires xs != [] && |order| == |xs| && Permutation(order, place) && InOrder(Reordered(xs, order))
    ensures forall ds :: Fits(xs, ds) ==> Sorted(Reordered(Batch(xs, ds), order))
    ensures (forall ds :: Fits(xs, ds) ==> SameDisk(MergeAll(Reordered(Batch(xs, ds), order), maxTransfer), Batch(xs, ds)))
            <==> Unseen(xs, order)
  {
    forall ds | Fits(xs, ds)
      ensures Sorted(Reordered(Batch(xs, ds), order))
      ensures SameDisk(MergeAll(Reordered(Batch(xs, ds), order), maxTransfer), Reordered(Batch(xs, ds), order))
    {
      ReorderedBatch(xs, ds, order, place);
      InOrderSorted(Reordered(xs, order), Reordered(ds, order));
      BatchKeepsDisk(Reordered(Batch(xs, ds), order), maxTransfer);
    }
    OrderIff(xs, order, place);
    if Unseen(xs, order) {
      forall ds | Fits(xs, ds)
        ensures SameDisk(MergeAll(Reordered(Batch(xs, ds), order), maxTransfer), Batch(xs, ds))
      {
        assert SameDisk(Reordered(Batch(xs, ds), order), Batch(xs, ds));
      }
    } else {
      var ds :| Fits(xs, ds) && !SameDisk(Reordered(Batch(xs, ds), order), Batch(xs, ds));
      var address: nat :| After(Reordered(Batch(xs, ds), order), address) != After(Batch(xs, ds), address);
      assert After(MergeAll(Reordered(Batch(xs, ds), order), maxTransfer), address) != After(Batch(xs, ds), address);
    }
  }

  /** Sector 1, then sectors 0 and 1: sorting swaps them, so the request given first keeps sector 1. */
  lemma SwappedOverlap()
    ensures var xs := [Extent(1, 1), Extent(0, 2)];
            Permutation([1, 0], [1, 0]) && InOrder(Reordered(xs, [1, 0])) && !SameForAllData(xs, [1, 0])
  {
    var xs := [Extent(1, 1), Extent(0, 2)];
    assert VisibleInversion(xs, [1, 0], 0, 1, 512);
    OrderIff(xs, [1, 0], [1, 0]);
  }

  /** A swap that does not show: a third request, last in both orders, writes all of the overlap. */
  lemma HiddenSwap()
    ensures var xs, order := [Extent(1, 1), Extent(0, 2), Extent(1, 1)], [1, 0, 2];
            Permutation(order, order) && InOrder(Reordered(xs, order)) && !NoSwaps(xs, order) && SameForAllData(xs, order)
  {
    var xs, order := [Extent(1, 1), Extent(0, 2), Extent(1, 1)], [1, 0, 2];
    assert Holds(xs[order[0]], 512) && Holds(xs[order[1]], 512);
    forall i: nat, j: nat, address: nat | i < |xs| && j < |xs|
      ensures !VisibleInversion(xs, order, i, j, address)
    {
      assert Holds(xs[2], address) <==> Holds(xs[0], address);
    }
    OrderIff(xs, order, order);
    var ys := Reordered(xs, order);
    assert ys == [Extent(0, 2), Extent(1, 1), Extent(1, 1)];
    assert ys[..2] == [Extent(0, 2), Extent(1, 1)];
  }

  // ----- flags -----

  /** Whether the `i`-th request is merged into what the ones before it have become. */
  predicate MergedAt(ws: seq<Write>, i: nat, maxTransfer: nat)
    requires 0 < i < |ws| && Sorted(ws)
  {
    SortedPrefix(ws, i);
    Merges(Last(MergeAll(ws[..i], maxTransfer)), ws[i], maxTransfer)
  }

  /** Which requests are merged into one before them. */
  function Joins(ws: seq<Write>, maxTransfer: nat): (js: seq<bool>)
    requires Sorted(ws)
    ensures |js| == |ws| && forall i :: 0 <= i < |js| ==> js[i] == (i > 0 && MergedAt(ws, i, maxTransfer))
  {
    seq(|ws|, i requires 0 <= i < |ws| => i > 0 && MergedAt(ws, i, maxTransfer))
  }

  /** The places that are not joined to one before them. */
  function Starts(js: seq<bool>): (os: seq<nat>)
    ensures |os| <= |js| && forall k :: 0 <= k < |os| ==> os[k] < |js|
  {
    if js == [] then [] else Starts(js[..|js| - 1]) + if js[|js| - 1] then [] else [|js| - 1]
  }

  /** For each request that is left, the first of those merged into it. */
  function Origins(ws: seq<Write>, maxTransfer: nat): seq<nat>
    requires Sorted(ws)
  {
    Starts(Joins(ws, maxTransfer))
  }

  lemma MergedAtPrefix(ws: seq<Write>, i: nat, maxTransfer: nat)
    requires 0 < i < |ws| - 1 && Sorted(ws)
    ensures MergedAt(Butlast(ws), i, maxTransfer) == MergedAt(ws, i, maxTransfer)
  {
    assert Butlast(ws)[..i] == ws[..i];
  }

  lemma JoinsPrefix(ws: seq<Write>, maxTransfer: nat)
    requires ws != [] && Sorted(ws)
    ensures Joins(ws, maxTransfer)[..|ws| - 1] == Joins(Butlast(ws), maxTransfer)
  {
    var js, before := Joins(ws, maxTransfer), Joins(Butlast(ws), maxTransfer);
    forall i | 0 <= i < |ws| - 1
      ensures before[i] == js[i]
    {
      if i > 0 {
        MergedAtPrefix(ws, i, maxTransfer);
      }
    }
  }

  function Sectors(ws: seq<Write>): (ks: seq<nat>)
    ensures |ks| == |ws| && forall i :: 0 <= i < |ks| ==> ks[i] == ws[i].sector
  {
    seq(|ws|, i requires 0 <= i < |ws| => ws[i].sector)
  }

  lemma SectorsAfterMerge(done: seq<Write>, b: Write, maxTransfer: nat)
    requires done != [] && Last(done).sector <= b.sector
    ensures Sectors(MergeInto(done, b, maxTransfer))
            == if Merges(Last(done), b, maxTransfer) then Sectors(done) else Sectors(done) + [b.sector]
  {
  }

  lemma LastStep(ws: seq<Write>, maxTransfer: nat)
    requires |ws| > 1 && Sorted(ws)
    ensures Sectors(MergeAll(ws, maxTransfer))
            == Sectors(MergeAll(Butlast(ws), maxTransfer)) + if MergedAt(ws, |ws| - 1, maxTransfer) then [] else [Last(ws).sector]
  {
    assert ws[..|ws| - 1] == Butlast(ws);
    SectorsAfterMerge(MergeAll(Butlast(ws), maxTransfer), Last(ws), maxTransfer);
  }

  /** The first of the requests that each request left stands for, as their sectors show. */
  function OriginSectors(ws: seq<Write>, js: seq<bool>): (ks: seq<nat>)
    requires |js| == |ws|
    ensures |ks| == |Starts(js)| && forall k :: 0 <= k < |ks| ==> ks[k] == ws[Starts(js)[k]].sector
  {
    seq(|Starts(js)|, k requires 0 <= k < |Starts(js)| => ws[Starts(js)[k]].sector)
  }

  lemma OriginSectorsNext(ws: seq<Write>, js: seq<bool>)
    requires |js| == |ws| && ws != []
    ensures OriginSectors(ws, js)
            == OriginSectors(Butlast(ws), js[..|js| - 1]) + if js[|js| - 1] then [] else [Last(ws).sector]
  {
  }

  /** What is left is as many as there are origins, each starting where its first request does. */
  lemma {:induction false} OriginsMatch(ws: seq<Write>, maxTransfer: nat)
    requires ws != [] && Sorted(ws)
    ensures Sectors(MergeAll(ws, maxTransfer)) == OriginSectors(ws, Joins(ws, maxTransfer))
    ensures |MergeAll(ws, maxTransfer)| == |Origins(ws, maxTransfer)|
  {
    var js := Joins(ws, maxTransfer);
    JoinsPrefix(ws, maxTransfer);
    OriginSectorsNext(ws, js);
    if |ws| == 1 {
      assert OriginSectors(Butlast(ws), js[..0]) == [];
    } else {
      OriginsMatch(Butlast(ws), maxTransfer);
      LastStep(ws, maxTransfer);
    }
    assert |Sectors(MergeAll(ws, maxTransfer))| == |OriginSectors(ws, js)|;
  }

  lemma {:induction false} AllStartIff(js: seq<bool>)
    ensures |Starts(js)| == |js| <==> forall i :: 0 <= i < |js| ==> !js[i]
  {
    if js != [] {
      AllStartIff(js[..|js| - 1]);
    }
  }

  /** A start keeps its place among the starts exactly when nothing up to it is joined. */
  lemma {:induction false} OwnPlaceIff(js: seq<bool>, k: nat)
    requires k < |Starts(js)|
    ensures var o := Starts(js)[k];
            k <= o && (o == k <==> forall i :: 0 <= i <= o ==> !js[i])
  {
    var n := |js| - 1;
    if k < |Starts(js[..n])| {
      OwnPlaceIff(js[..n], k);
    } else {
      AllStartIff(js[..n]);
    }
  }

  function Flagged(ws: seq<Write>, flags: seq<nat>): (rs: seq<Request>)
    requires |flags| == |ws|
    ensures |rs| == |ws| && Writes(rs) == ws && forall i :: 0 <= i < |rs| ==> rs[i].flags == flags[i]
  {
    var rs := seq(|ws|, i requires 0 <= i < |ws| => Request(ws[i], flags[i]));
    assert Writes(rs) == ws;
    rs
  }

  /** The flags a request is submitted with when the batch carried `flags`. */
  function SubmittedFlags(ws: seq<Write>, flags: seq<nat>, maxTransfer: nat, k: nat): (f: nat)
    requires ws != [] && Sorted(ws) && |flags| == |ws| && k < |MergeAll(ws, maxTransfer)|
  {
    MergeAllShrinks(ws, maxTransfer);
    Submitted(Flagged(ws, flags), maxTransfer)[k].flags
  }

  lemma FlagsOfPlace(ws: seq<Write>, flags: seq<nat>, maxTransfer: nat, k: nat)
    requires ws != [] && Sorted(ws) && |flags| == |ws| && k < |MergeAll(ws, maxTransfer)|
    ensures k < |flags| && SubmittedFlags(ws, flags, maxTransfer, k) == flags[k]
  {
    MergeAllShrinks(ws, maxTransfer);
  }

  /**
   * A request that is left carries its own flags, whatever flags the batch came with, exactly when
   * no request up to it was merged: the flags stay in place when the requests move down.
   */
  lemma OwnFlagsIff(ws: seq<Write>, maxTransfer: nat, k: nat)
    requires ws != [] && Sorted(ws) && k < |MergeAll(ws, maxTransfer)|
    ensures k < |Origins(ws, maxTransfer)| && Origins(ws, maxTransfer)[k] < |ws|
    ensures var o := Origins(ws, maxTransfer)[k];
            (forall flags :: |flags| == |ws| ==> SubmittedFlags(ws, flags, maxTransfer, k) == flags[o])
            <==> forall i :: 0 < i <= o ==> !MergedAt(ws, i, maxTransfer)
  {
    OriginsMatch(ws, maxTransfer);
    var o := Origins(ws, maxTransfer)[k];
    OwnPlaceIff(Joins(ws, maxTransfer), k);
    FlagsIff(ws, maxTransfer, k, o);
    var js := Joins(ws, maxTransfer);
    assert (forall i :: 0 <= i <= o ==> !js[i]) <==> (forall i :: 0 < i <= o ==> !MergedAt(ws, i, maxTransfer)) by {
      assert !js[0];
      assert forall i :: 0 < i <= o ==> js[i] == MergedAt(ws, i, maxTransfer);
    }
  }

  lemma FlagsIff(ws: seq<Write>, maxTransfer: nat, k: nat, o: nat)
    requires ws != [] && Sorted(ws) && k < |MergeAll(ws, maxTransfer)| && o < |ws|
    ensures (forall flags :: |flags| == |ws| ==> SubmittedFlags(ws, flags, maxTransfer, k) == flags[o]) <==> o == k
  {
    forall flags | |flags| == |ws|
      ensures k < |flags| && SubmittedFlags(ws, flags, maxTransfer, k) == flags[k]
    {
      FlagsOfPlace(ws, flags, maxTransfer, k);
    }
    if o != k {
      var flags: seq<nat> := seq(|ws|, i => i);
      assert SubmittedFlags(ws, flags, maxTransfer, k) != flags[o];
    }
  }

  /** A sector of the value `x`. */
  function Filled(x: byte): Vector
  {
    [seq(SECTOR, _ => x)]
  }

  /** Of three requests whose first two touch, the third is submitted with the second's flags. */
  lemma ThirdHasSecondsFlags(flags: seq<nat>)
    requires |flags| == 3
    ensures var ws := [Write(0, 1, Filled(1)), Write(1, 1, Filled(2)), Write(10, 1, Filled(3))];
            && Sorted(ws) && |MergeAll(ws, 0)| == 2 && MergeAll(ws, 0)[1] == ws[2]
            && SubmittedFlags(ws, flags, 0, 1) == flags[1]
  {
    var a, b, c := Write(0, 1, Filled(1)), Write(1, 1, Filled(2)), Write(10, 1, Filled(3));
    var ws := [a, b, c];
    assert Butlast(ws) == [a, b] && Butlast([a, b]) == [a];
    SinglePiece(Filled(1)[0]);
    SinglePiece(Filled(2)[0]);
    MergedFits(a, b);
    assert Butlast([a]) == [];
    assert MergeAll([a, b], 0) == MergeInto([a], b, 0) == [Merged(a, b)];
    assert MergeInto([Merged(a, b)], c, 0) == [Merged(a, b), c];
  }
}
