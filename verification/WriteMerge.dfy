/** Batched writes: requests that touch are merged before they are submitted. */
module WriteMerge {
  import opened Bytes

  /** A scatter-gather list: the pieces of a request's data, in order. */
  type Vector = seq<seq<byte>>

  const IOV_MAX := 1024

  function Flat(v: Vector): seq<byte>
  {
    if v == [] then [] else v[0] + Flat(v[1..])
  }

  lemma {:induction false} FlatAppend(a: Vector, b: Vector)
    ensures Flat(a + b) == Flat(a) + Flat(b)
  {
    if a == [] {
      assert a + b == b;
    } else {
      assert (a + b)[0] == a[0] && (a + b)[1..] == a[1..] + b;
      FlatAppend(a[1..], b);
    }
  }

  /** The pieces of `v` after `skip` bytes, up to `size` bytes of them. */
  function Copied(v: Vector, skip: nat, size: nat): Vector
    decreases |v|
  {
    if v == [] || size == 0 then []
    else if skip >= |v[0]| then Copied(v[1..], skip - |v[0]|, size)
    else
      var piece := v[0][skip..];
      if |piece| > size then [piece[..size]]
      else [piece] + Copied(v[1..], 0, size - |piece|)
  }

  /** Copying pieces copies exactly those bytes. */
  lemma {:induction false} CopiedBytes(v: Vector, skip: nat, size: nat)
    requires skip + size <= |Flat(v)|
    ensures Flat(Copied(v, skip, size)) == Flat(v)[skip..skip + size]
    decreases |v|
  {
    if v == [] || size == 0 {
    } else if skip >= |v[0]| {
      CopiedBytes(v[1..], skip - |v[0]|, size);
      assert Flat(v)[skip..skip + size] == Flat(v[1..])[skip - |v[0]|..skip - |v[0]| + size];
    } else {
      var piece := v[0][skip..];
      if |piece| > size {
        assert Flat([piece[..size]]) == piece[..size] + Flat([]) == piece[..size];
        assert Flat(v)[skip..skip + size] == piece[..size];
      } else {
        CopiedBytes(v[1..], 0, size - |piece|);
        var rest := Copied(v[1..], 0, size - |piece|);
        assert ([piece] + rest)[1..] == rest;
        assert Flat(v)[skip..skip + size] == piece + Flat(v[1..])[..size - |piece|];
      }
    }
  }

  lemma {:induction false} CopiedCount(v: Vector, skip: nat, size: nat)
    ensures |Copied(v, skip, size)| <= |v|
    decreases |v|
  {
    if v == [] || size == 0 {
    } else if skip >= |v[0]| {
      CopiedCount(v[1..], skip - |v[0]|, size);
    } else if |v[0]| - skip <= size {
      CopiedCount(v[1..], 0, size - (|v[0]| - skip));
    }
  }

  /** A vector cut in two, with a part left out, has at most one piece more. */
  lemma {:induction false} CutCount(v: Vector, head: nat, skip: nat, size: nat)
    requires head <= skip
    ensures |Copied(v, 0, head)| + |Copied(v, skip, size)| <= |v| + 1
    decreases |v|
  {
    CopiedCount(v, 0, head);
    CopiedCount(v, skip, size);
    if v != [] && head >= |v[0]| && head > 0 && size > 0 {
      CutCount(v[1..], head - |v[0]|, skip - |v[0]|, size);
    }
  }

  // ----- requests and what they mean -----

  datatype WriteOf<D> = Write(sector: nat, count: nat, data: D)

  type Write = WriteOf<Vector>

  datatype Request = Request(write: Write, flags: nat)

  predicate WriteOk(w: Write)
  {
    |Flat(w.data)| == w.count * SECTOR
  }

  function End(w: Write): nat { w.sector + w.count }

  predicate Covers(w: Write, address: nat)
  {
    w.sector * SECTOR <= address < w.sector * SECTOR + |Flat(w.data)|
  }

  function ByteOf(w: Write, address: nat): byte
    requires Covers(w, address)
  {
    Flat(w.data)[address - w.sector * SECTOR]
  }

  /** The byte at `address` once `ws` are on the disk in order; `None` if none of them wrote it. */
  function After(ws: seq<Write>, address: nat): Option<byte>
  {
    if ws == [] then None
    else
      var last := ws[|ws| - 1];
      if Covers(last, address) then Some(ByteOf(last, address)) else After(ws[..|ws| - 1], address)
  }

  ghost predicate SameDisk(a: seq<Write>, b: seq<Write>)
  {
    forall address: nat :: After(a, address) == After(b, address)
  }

  // ----- merging -----

  function PiecesOf(w: Write): nat { |w.data| }

  /** When the code merges: they touch, and no limit of the device or the host is exceeded. */
  predicate Merges(a: Write, b: Write, maxTransfer: nat)
  {
    b.sector <= End(a) && !(PiecesOf(a) + PiecesOf(b) + 1 > IOV_MAX)
    && !(maxTransfer != 0 && a.count + b.count > maxTransfer)
  }

  function Merged(a: Write, b: Write): Write
    requires a.sector <= b.sector <= End(a)
  {
    var head := Head(a, b);
    var data := head + if |Flat(head)| < |Flat(a.data)|
                       then Copied(a.data, |Flat(head)|, |Flat(a.data)| - |Flat(head)|) else [];
    Write(a.sector, |Flat(data)| / SECTOR, data)
  }

  function MergeInto(done: seq<Write>, b: Write, maxTransfer: nat): seq<Write>
    requires done != [] && Last(done).sector <= b.sector
  {
    var a := Last(done);
    if Merges(a, b, maxTransfer) then Butlast(done) + [Merged(a, b)] else done + [b]
  }

  function Butlast(ws: seq<Write>): seq<Write>
    requires ws != []
  {
    ws[..|ws| - 1]
  }

  function Last(ws: seq<Write>): Write
    requires ws != []
  {
    ws[|ws| - 1]
  }

  predicate Sorted(ws: seq<Write>)
  {
    |ws| <= 1 || (Sorted(Butlast(ws)) && Last(Butlast(ws)).sector <= Last(ws).sector)
  }

  /** The first request up to the second, and all of the second. */
  function Head(a: Write, b: Write): Vector
    requires a.sector <= b.sector
  {
    Copied(a.data, 0, (b.sector - a.sector) * SECTOR) + Copied(b.data, 0, |Flat(b.data)|)
  }

  lemma HeadBytes(a: Write, b: Write)
    requires WriteOk(a) && a.sector <= b.sector <= End(a)
    ensures var off := (b.sector - a.sector) * SECTOR;
            off <= |Flat(a.data)| && Flat(Head(a, b)) == Flat(a.data)[..off] + Flat(b.data)
  {
    var off, size := (b.sector - a.sector) * SECTOR, |Flat(b.data)|;
    CopiedBytes(a.data, 0, off);
    CopiedBytes(b.data, 0, size);
    FlatAppend(Copied(a.data, 0, off), Copied(b.data, 0, size));
    assert Flat(b.data)[0..size] == Flat(b.data);
  }

  /** The bytes of a merged request: the second's over the first's. */
  lemma MergedBytes(a: Write, b: Write)
    requires WriteOk(a) && WriteOk(b) && a.sector <= b.sector <= End(a)
    ensures var w, off := Merged(a, b), (b.sector - a.sector) * SECTOR;
            var fa, fb := Flat(a.data), Flat(b.data);
            && off <= |fa|
            && Flat(w.data) == fa[..off] + fb + if off + |fb| < |fa| then fa[off + |fb|..] else []
  {
    HeadBytes(a, b);
    var fa, head := Flat(a.data), Head(a, b);
    var n := |Flat(head)|;
    if n < |fa| {
      CopiedBytes(a.data, n, |fa| - n);
      FlatAppend(head, Copied(a.data, n, |fa| - n));
      assert fa[n..n + (|fa| - n)] == fa[n..];
    } else {
      assert head + [] == head;
    }
  }

  /** A merged request is well formed, no longer than both, and no more scattered than allowed. */
  lemma MergedFits(a: Write, b: Write)
    requires WriteOk(a) && WriteOk(b) && a.sector <= b.sector <= End(a)
    ensures var w := Merged(a, b);
            && WriteOk(w) && End(w) == Max(End(a), End(b)) && w.count <= a.count + b.count
            && PiecesOf(w) <= PiecesOf(a) + PiecesOf(b) + 1
  {
    MergedBytes(a, b);
    var w := Merged(a, b);
    var fa, fb, off := Flat(a.data), Flat(b.data), (b.sector - a.sector) * SECTOR;
    assert |Flat(w.data)| == Max(|fa|, off + |fb|);
    assert |Flat(w.data)| == (Max(End(a), End(b)) - a.sector) * SECTOR;
    MergedPieces(a, b);
  }

  lemma MergedPieces(a: Write, b: Write)
    requires WriteOk(a) && WriteOk(b) && a.sector <= b.sector <= End(a)
    ensures PiecesOf(Merged(a, b)) <= PiecesOf(a) + PiecesOf(b) + 1
  {
    var off, size := (b.sector - a.sector) * SECTOR, |Flat(b.data)|;
    CopiedBytes(a.data, 0, off);
    CopiedBytes(b.data, 0, size);
    FlatAppend(Copied(a.data, 0, off), Copied(b.data, 0, size));
    CopiedCount(a.data, 0, off);
    CopiedCount(b.data, 0, size);
    if off + size < |Flat(a.data)| {
      CutCount(a.data, off, off + size, |Flat(a.data)| - (off + size));
    }
  }

  /** Merging the last two of a list of writes leaves the same bytes everywhere. */
  lemma MergingKeepsDisk(before: seq<Write>, a: Write, b: Write)
    requires WriteOk(a) && WriteOk(b) && a.sector <= b.sector <= End(a)
    ensures SameDisk(before + [Merged(a, b)], before + [a, b])
  {
    var w := Merged(a, b);
    MergedBytes(a, b);
    assert (before + [a, b])[..|before| + 1] == before + [a];
    assert (before + [a])[..|before|] == before;
    assert (before + [w])[..|before|] == before;
    forall address: nat
      ensures After(before + [w], address) == After(before + [a, b], address)
    {
      MergedByte(a, b, address);
    }
  }

  lemma MergedByte(a: Write, b: Write, address: nat)
    requires WriteOk(a) && WriteOk(b) && a.sector <= b.sector <= End(a)
    ensures var w := Merged(a, b);
            && (Covers(w, address) <==> Covers(a, address) || Covers(b, address))
            && (Covers(b, address) ==> ByteOf(w, address) == ByteOf(b, address))
            && (Covers(a, address) && !Covers(b, address) ==> ByteOf(w, address) == ByteOf(a, address))
  {
    MergedBytes(a, b);
  }

  /** Appending a write to two lists that leave the same bytes keeps them so. */
  lemma SameDiskAppend(a: seq<Write>, b: seq<Write>, w: Write)
    requires SameDisk(a, b)
    ensures SameDisk(a + [w], b + [w])
  {
    assert (a + [w])[..|a|] == a && (b + [w])[..|b|] == b;
  }

  // ----- the whole batch -----

  function MergeAll(ws: seq<Write>, maxTransfer: nat): (out: seq<Write>)
    requires ws != [] && Sorted(ws)
    ensures out != [] && Last(out).sector <= Last(ws).sector
  {
    if |ws| == 1 then ws else MergeInto(MergeAll(Butlast(ws), maxTransfer), Last(ws), maxTransfer)
  }

  predicate AllOk(ws: seq<Write>)
  {
    forall i :: 0 <= i < |ws| ==> WriteOk(ws[i])
  }

  predicate WithinLimits(ws: seq<Write>, maxTransfer: nat)
  {
    forall i :: 0 <= i < |ws| ==>
      (maxTransfer != 0 ==> ws[i].count <= maxTransfer) && PiecesOf(ws[i]) <= IOV_MAX
  }

  lemma MergeIntoKeepsDisk(done: seq<Write>, b: Write, maxTransfer: nat)
    requires done != [] && Last(done).sector <= b.sector && AllOk(done) && WriteOk(b)
    ensures SameDisk(MergeInto(done, b, maxTransfer), done + [b]) == true
  {
    var a, before := Last(done), Butlast(done);
    if Merges(a, b, maxTransfer) {
      MergingKeepsDisk(before, a, b);
      assert done + [b] == before + [a, b];
    }
  }

  lemma MergeIntoKeepsForm(done: seq<Write>, b: Write, maxTransfer: nat)
    requires done != [] && Last(done).sector <= b.sector && AllOk(done) && Sorted(done) && WriteOk(b)
    ensures var out := MergeInto(done, b, maxTransfer);
            && AllOk(out) == true && Sorted(out) == true
            && (WithinLimits(done, maxTransfer) && WithinLimits([b], maxTransfer) ==> WithinLimits(out, maxTransfer) == true)
  {
    var a, before := Last(done), Butlast(done);
    var out := MergeInto(done, b, maxTransfer);
    if Merges(a, b, maxTransfer) {
      MergedFits(a, b);
      assert Butlast(out) == before;
      assert forall i :: 0 <= i < |before| ==> out[i] == done[i];
    } else {
      assert Butlast(out) == done;
      assert [b][0] == b;
    }
  }

  /**
   * Submitting the merged requests in order leaves every byte as the sorted requests in order
   * would; they are well formed, sorted, and within the device's limits if the given ones are.
   */
  lemma {:induction false} BatchKeepsDisk(ws: seq<Write>, maxTransfer: nat)
    requires ws != [] && Sorted(ws) && AllOk(ws)
    ensures var out := MergeAll(ws, maxTransfer);
            && SameDisk(out, ws) == true && AllOk(out) == true && Sorted(out) == true
            && (WithinLimits(ws, maxTransfer) ==> WithinLimits(out, maxTransfer) == true)
  {
    if |ws| == 1 {
      assert MergeAll(ws, maxTransfer) == ws;
    } else {
      Parts(ws, maxTransfer);
      BatchKeepsDisk(Butlast(ws), maxTransfer);
      BatchStep(MergeAll(Butlast(ws), maxTransfer), Butlast(ws), Last(ws), maxTransfer);
    }
  }

  lemma Parts(ws: seq<Write>, maxTransfer: nat)
    requires ws != []
    ensures Butlast(ws) + [Last(ws)] == ws
    ensures AllOk(ws) ==> AllOk(Butlast(ws)) == true && WriteOk(Last(ws))
    ensures WithinLimits(ws, maxTransfer) ==>
              WithinLimits(Butlast(ws), maxTransfer) == true && WithinLimits([Last(ws)], maxTransfer) == true
  {
  }

  lemma BatchStep(done: seq<Write>, given: seq<Write>, b: Write, maxTransfer: nat)
    requires done != [] && Last(done).sector <= b.sector && AllOk(done) && Sorted(done) && WriteOk(b)
    requires SameDisk(done, given)
    ensures var out := MergeInto(done, b, maxTransfer);
            && SameDisk(out, given + [b]) == true && AllOk(out) == true && Sorted(out) == true
            && (WithinLimits(done, maxTransfer) && WithinLimits([b], maxTransfer) ==> WithinLimits(out, maxTransfer) == true)
  {
    MergeIntoKeepsDisk(done, b, maxTransfer);
    SameDiskAppend(done, given, b);
    MergeIntoKeepsForm(done, b, maxTransfer);
  }

  function TotalPieces(ws: seq<Write>): nat
  {
    if ws == [] then 0 else TotalPieces(Butlast(ws)) + PiecesOf(Last(ws))
  }

  function TotalCount(ws: seq<Write>): nat
  {
    if ws == [] then 0 else TotalCount(Butlast(ws)) + Last(ws).count
  }

  /** A batch too small to meet any limit. */
  predicate Unlimited(ws: seq<Write>, maxTransfer: nat)
  {
    TotalPieces(ws) + |ws| <= IOV_MAX && (maxTransfer != 0 ==> TotalCount(ws) <= maxTransfer)
  }

  predicate Gaps(ws: seq<Write>)
  {
    |ws| <= 1 || (Gaps(Butlast(ws)) && End(Last(Butlast(ws))) < Last(ws).sector)
  }

  /** When no limit can be met, what is left is separated by gaps. */
  lemma {:induction false} UnlimitedBatchHasGaps(ws: seq<Write>, maxTransfer: nat)
    requires ws != [] && Sorted(ws) && AllOk(ws) && Unlimited(ws, maxTransfer)
    ensures var out := MergeAll(ws, maxTransfer);
            && Gaps(out) == true
            && PiecesOf(Last(out)) <= TotalPieces(ws) + |ws| - 1
            && Last(out).count <= TotalCount(ws)
  {
    if |ws| > 1 {
      UnlimitedBatchHasGaps(Butlast(ws), maxTransfer);
      BatchKeepsDisk(Butlast(ws), maxTransfer);
      MergeIntoKeepsGaps(MergeAll(Butlast(ws), maxTransfer), Last(ws), maxTransfer);
    }
  }

  lemma MergeIntoKeepsGaps(done: seq<Write>, b: Write, maxTransfer: nat)
    requires done != [] && Last(done).sector <= b.sector && AllOk(done) && WriteOk(b) && Gaps(done)
    requires var a := Last(done);
             PiecesOf(a) + PiecesOf(b) + 1 <= IOV_MAX && (maxTransfer != 0 ==> a.count + b.count <= maxTransfer)
    ensures var out, a := MergeInto(done, b, maxTransfer), Last(done);
            && Gaps(out) == true && out != [] && PiecesOf(Last(out)) <= PiecesOf(a) + PiecesOf(b) + 1
            && Last(out).count <= a.count + b.count
  {
    var a := Last(done);
    if b.sector <= End(a) {
      MergedFits(a, b);
      GapsReplaceLast(done, Merged(a, b));
    } else {
      GapsAppend(done, b);
    }
  }

  lemma GapsReplaceLast(ws: seq<Write>, w: Write)
    requires ws != [] && Gaps(ws) && w.sector == Last(ws).sector
    ensures Gaps(Butlast(ws) + [w]) == true
  {
    assert Butlast(Butlast(ws) + [w]) == Butlast(ws);
  }

  lemma GapsAppend(ws: seq<Write>, w: Write)
    requires ws != [] && Gaps(ws) && End(Last(ws)) < w.sector
    ensures Gaps(ws + [w]) == true
  {
    assert Butlast(ws + [w]) == ws;
  }

  // ----- the order in which the requests were given -----

  /** No two requests write the same byte. */
  predicate Disjoint(ws: seq<Write>)
  {
    forall i, j :: 0 <= i < j < |ws| ==> Apart(ws[i], ws[j])
  }

  predicate Apart(a: Write, b: Write)
  {
    || a.sector * SECTOR + |Flat(a.data)| <= b.sector * SECTOR
    || b.sector * SECTOR + |Flat(b.data)| <= a.sector * SECTOR
    || Flat(a.data) == [] || Flat(b.data) == []
  }

  lemma {:induction false} AfterComesFrom(ws: seq<Write>, address: nat) returns (i: nat)
    ensures After(ws, address) == None ==> forall w :: w in ws ==> !Covers(w, address)
    ensures After(ws, address) != None ==>
              i < |ws| && Covers(ws[i], address) && After(ws, address) == Some(ByteOf(ws[i], address))
  {
    i := 0;
    if ws != [] {
      if Covers(Last(ws), address) {
        i := |ws| - 1;
      } else {
        i := AfterComesFrom(Butlast(ws), address);
        assert forall w :: w in ws ==> w in Butlast(ws) || w == Last(ws);
      }
    }
  }

  /** Requests that do not overlap may be sorted, or put in any other order. */
  lemma DisjointInAnyOrder(ws: seq<Write>, qs: seq<Write>)
    requires Disjoint(ws) && multiset(ws) == multiset(qs)
    ensures SameDisk(ws, qs)
  {
    forall address: nat
      ensures After(ws, address) == After(qs, address)
    {
      var i := AfterComesFrom(ws, address);
      var j := AfterComesFrom(qs, address);
      assert forall w :: w in qs <==> w in multiset(qs);
      assert forall w :: w in ws <==> w in multiset(ws);
      if After(ws, address) != None && After(qs, address) != None {
        assert qs[j] in ws;
        var k :| 0 <= k < |ws| && ws[k] == qs[j];
      }
    }
  }

  /** So a batch that does not overlap leaves what the requests as given would leave. */
  lemma DisjointBatchAsGiven(given: seq<Write>, sorted: seq<Write>, maxTransfer: nat)
    requires given != [] && Disjoint(given) && AllOk(given)
    requires multiset(given) == multiset(sorted) && Sorted(sorted)
    ensures sorted != [] && SameDisk(MergeAll(sorted, maxTransfer), given)
  {
    assert given[0] in multiset(sorted);
    forall i | 0 <= i < |sorted|
      ensures WriteOk(sorted[i])
    {
      assert sorted[i] in multiset(given);
    }
    BatchKeepsDisk(sorted, maxTransfer);
    DisjointInAnyOrder(given, sorted);
  }

  // ----- in place -----

  function Writes(rs: seq<Request>): (ws: seq<Write>)
    ensures |ws| == |rs| && forall i :: 0 <= i < |rs| ==> ws[i] == rs[i].write
  {
    seq(|rs|, i requires 0 <= i < |rs| => rs[i].write)
  }

  lemma {:induction false} SortedPrefix(ws: seq<Write>, n: nat)
    requires n <= |ws| && Sorted(ws)
    ensures Sorted(ws[..n]) == true
    decreases |ws|
  {
    if n == |ws| {
      assert ws[..n] == ws;
    } else {
      assert Butlast(ws)[..n] == ws[..n];
      SortedPrefix(Butlast(ws), n);
    }
  }

  /** `done` is what the first `i` requests have been merged into. */
  predicate SoFar(ws: seq<Write>, i: nat, maxTransfer: nat, done: seq<Write>)
  {
    0 < i <= |ws| && Sorted(ws[..i]) && done == MergeAll(ws[..i], maxTransfer)
  }

  lemma MergeStarts(ws: seq<Write>, maxTransfer: nat)
    requires ws != []
    ensures SoFar(ws, 1, maxTransfer, [ws[0]]) == true
  {
    assert ws[..1] == [ws[0]];
  }

  lemma MergeNext(ws: seq<Write>, i: nat, maxTransfer: nat, done: seq<Write>)
    requires SoFar(ws, i, maxTransfer, done) && i < |ws| && Sorted(ws)
    ensures done != [] && Last(done).sector <= ws[i].sector
    ensures SoFar(ws, i + 1, maxTransfer, MergeInto(done, ws[i], maxTransfer)) == true
  {
    SortedPrefix(ws, i + 1);
    assert Butlast(ws[..i + 1]) == ws[..i] && Last(ws[..i + 1]) == ws[i];
  }

  lemma MergeEnds(ws: seq<Write>, maxTransfer: nat, done: seq<Write>)
    requires ws != [] && SoFar(ws, |ws|, maxTransfer, done) && Sorted(ws)
    ensures done == MergeAll(ws, maxTransfer)
  {
    assert ws[..|ws|] == ws;
  }

  lemma WritesOfTail(rs: seq<Request>)
    requires rs != []
    ensures Writes(rs) == Writes(rs[..|rs| - 1]) + [rs[|rs| - 1].write]
  {
  }

  /** The requests after merging: the merged writes, each with the flags found in its place. */
  function Submitted(rs: seq<Request>, maxTransfer: nat): seq<Request>
    requires rs != [] && Sorted(Writes(rs)) && |MergeAll(Writes(rs), maxTransfer)| <= |rs|
  {
    var out := MergeAll(Writes(rs), maxTransfer);
    seq(|out|, k requires 0 <= k < |out| => Request(out[k], rs[k].flags))
  }

  lemma {:induction false} MergeAllShrinks(ws: seq<Write>, maxTransfer: nat)
    requires ws != [] && Sorted(ws)
    ensures |MergeAll(ws, maxTransfer)| <= |ws|
  {
    if |ws| > 1 {
      MergeAllShrinks(Butlast(ws), maxTransfer);
    }
  }

  lemma SubmittedAre(was: seq<Request>, now: seq<Request>, maxTransfer: nat)
    requires was != [] && Sorted(Writes(was)) && Writes(now) == MergeAll(Writes(was), maxTransfer) && |now| <= |was|
    requires forall k :: 0 <= k < |now| ==> now[k].flags == was[k].flags
    ensures now == Submitted(was, maxTransfer)
  {
    var out := MergeAll(Writes(was), maxTransfer);
    forall k | 0 <= k < |now|
      ensures now[k] == Submitted(was, maxTransfer)[k]
    {
      assert now[k].write == Writes(now)[k] == out[k];
    }
  }

  /** A new scatter-gather list for two requests that touch. */
  method Combine(a: Write, b: Write) returns (w: Write)
    requires a.sector <= b.sector <= End(a)
    ensures w == Merged(a, b)
  {
    var data := Copied(a.data, 0, (b.sector - a.sector) * SECTOR);
    data := data + Copied(b.data, 0, |Flat(b.data)|);
    if |Flat(data)| < |Flat(a.data)| {
      data := data + Copied(a.data, |Flat(data)|, |Flat(a.data)| - |Flat(data)|);
    } else {
      assert data + [] == data;
    }
    w := Write(a.sector, |Flat(data)| / SECTOR, data);
  }

  method Decide(a: Write, b: Write, maxTransfer: nat) returns (merge: bool)
    ensures merge == Merges(a, b, maxTransfer)
  {
    merge := b.sector <= a.sector + a.count;
    if |a.data| + |b.data| + 1 > IOV_MAX {
      merge := false;
    }
    if maxTransfer != 0 && a.count + b.count > maxTransfer {
      merge := false;
    }
  }

  /**
   * Merges requests that qsort has put in order of their sectors. Only sector, length and data
   * move down to a lower place; everything else of a request stays where it is.
   */
  method MultiwriteMerge(reqs: array<Request>, num: nat, maxTransfer: nat) returns (left: nat)
    requires 0 < num <= reqs.Length
    requires Sorted(Writes(reqs[..num]))
    modifies reqs
    ensures 0 < left <= num && |MergeAll(Writes(old(reqs[..num])), maxTransfer)| <= num
    ensures reqs[..left] == Submitted(old(reqs[..num]), maxTransfer)
  {
    ghost var ws := Writes(reqs[..num]);
    var outidx: nat := 0;
    MergeStarts(ws, maxTransfer);
    assert Writes(reqs[..1]) == [ws[0]];
    for i := 1 to num
      invariant 0 <= outidx < i <= num
      invariant SoFar(ws, i, maxTransfer, Writes(reqs[..outidx + 1])) == true
      invariant forall k :: i <= k < num ==> reqs[k].write == ws[k]
      invariant forall k :: 0 <= k < reqs.Length ==> reqs[k].flags == old(reqs[k].flags)
    {
      outidx := MergeRound(reqs, outidx, i, maxTransfer, ws);
    }
    left := outidx + 1;
    MergeEnds(ws, maxTransfer, Writes(reqs[..left]));
    MergeAllShrinks(ws, maxTransfer);
    SubmittedAre(old(reqs[..num]), reqs[..left], maxTransfer);
  }

  method MergeRound(reqs: array<Request>, outidx: nat, i: nat, maxTransfer: nat, ghost ws: seq<Write>)
    returns (last: nat)
    requires outidx < i < |ws| <= reqs.Length && Sorted(ws) && reqs[i].write == ws[i]
    requires SoFar(ws, i, maxTransfer, Writes(reqs[..outidx + 1])) == true
    modifies reqs
    ensures last <= i && SoFar(ws, i + 1, maxTransfer, Writes(reqs[..last + 1])) == true
    ensures forall k :: i < k < reqs.Length ==> reqs[k] == old(reqs[k])
    ensures forall k :: 0 <= k < reqs.Length ==> reqs[k].flags == old(reqs[k].flags)
  {
    ghost var done := Writes(reqs[..outidx + 1]);
    MergeNext(ws, i, maxTransfer, done);
    assert Last(done) == reqs[outidx].write;
    last := MergeAt(reqs, outidx, i, maxTransfer);
  }

  /** Request `i` is merged into the one at `outidx`, or moves down behind it. */
  method MergeAt(reqs: array<Request>, outidx: nat, i: nat, maxTransfer: nat) returns (last: nat)
    requires outidx < i < reqs.Length && reqs[outidx].write.sector <= reqs[i].write.sector
    modifies reqs
    ensures outidx <= last <= i
    ensures Writes(reqs[..last + 1]) == MergeInto(Writes(old(reqs[..outidx + 1])), old(reqs[i].write), maxTransfer)
    ensures forall k :: i < k < reqs.Length ==> reqs[k] == old(reqs[k])
    ensures forall k :: 0 <= k < reqs.Length ==> reqs[k].flags == old(reqs[k].flags)
  {
    var a, b := reqs[outidx].write, reqs[i].write;
    ghost var was := reqs[..outidx + 1];
    WritesOfTail(was);
    var merge := Decide(a, b, maxTransfer);
    if merge {
      var w := Combine(a, b);
      reqs[outidx] := Request(w, reqs[outidx].flags);
      last := outidx;
      assert reqs[..last] == was[..last];
    } else {
      last := outidx + 1;
      reqs[last] := Request(b, reqs[last].flags);
      assert reqs[..last] == was;
    }
    WritesOfTail(reqs[..last + 1]);
    assert reqs[..last + 1][..last] == reqs[..last];
    assert Butlast(Writes(was)) == Writes(was[..outidx]);
  }

  // ----- completion -----

  /** The first error among the results, in the order in which they came. */
  function FirstError(results: seq<int>): int
  {
    if results == [] then 0
    else if FirstError(results[..|results| - 1]) != 0 then FirstError(results[..|results| - 1])
    else if results[|results| - 1] < 0 then results[|results| - 1] else 0
  }

  /** Every callback once, with the error. */
  function Calls(callbacks: seq<nat>, error: int): seq<(nat, int)>
  {
    if callbacks == [] then [] else Calls(callbacks[..|callbacks| - 1], error) + [(callbacks[|callbacks| - 1], error)]
  }

  class MultiwriteCB {
    var error: int
    var pending: nat
    const callbacks: seq<nat>
    /** Callbacks made so far, with what they were told. */
    var made: seq<(nat, int)>
    ghost var results: seq<int>
    ghost const submitted: nat

    ghost predicate Valid()
      reads this
    {
      && |results| + pending == submitted && error == FirstError(results)
      && made == if pending == 0 then Calls(callbacks, error) else []
    }

    constructor (callbacks: seq<nat>, submitted: nat)
      requires submitted > 0
      ensures Valid() && results == [] && this.callbacks == callbacks && this.submitted == submitted
    {
      error, pending, made := 0, submitted, [];
      this.callbacks := callbacks;
      results, this.submitted := [], submitted;
    }

    /** One request is done. With the last one every caller hears, once, of the first error. */
    method Complete(ret: int)
      requires Valid() && pending > 0
      modifies this
      ensures Valid() && results == old(results) + [ret]
    {
      assert (results + [ret])[..|results|] == results;
      results := results + [ret];
      if ret < 0 && error == 0 {
        error := ret;
      }
      pending := pending - 1;
      if pending == 0 {
        for i := 0 to |callbacks|
          invariant made == Calls(callbacks[..i], error) && pending == 0
          invariant results == old(results) + [ret] && error == FirstError(results)
        {
          assert callbacks[..i + 1][..i] == callbacks[..i];
          made := made + [(callbacks[i], error)];
        }
        assert callbacks[..|callbacks|] == callbacks;
      }
    }
  }

  /** The error told is one of the results, and none that came before it failed. */
  lemma {:induction false} FirstErrorIsFirst(results: seq<int>)
    ensures FirstError(results) == 0 <==> forall i :: 0 <= i < |results| ==> results[i] >= 0
    ensures FirstError(results) != 0 ==>
              exists i :: 0 <= i < |results| && results[i] == FirstError(results) < 0
                          && forall j :: 0 <= j < i ==> results[j] >= 0
  {
    if results != [] {
      var n := |results| - 1;
      var before := results[..n];
      FirstErrorIsFirst(before);
      if FirstError(before) != 0 {
        var i :| 0 <= i < |before| && before[i] == FirstError(before) < 0 && forall j :: 0 <= j < i ==> before[j] >= 0;
        assert results[i] == FirstError(results) && forall j :: 0 <= j < i ==> results[j] == before[j];
      } else {
        assert forall j :: 0 <= j < n ==> results[j] == before[j];
      }
    }
  }
}
