/** Writing zeroes in pieces that suit the driver: aligned, limited, natively or from a buffer. */
module WriteZeroes {
  import Bytes

  const MAX_WRITE_ZEROES_DEFAULT := 32768
  const ENOTSUP: int := 95
  const ENOMEM: int := 12

  /** Limits of a driver, in sectors; 0 stands for none. */
  datatype Limits = Limits(maxZeroes: nat, alignment: nat, maxTransfer: nat)

  function ZeroesLimit(l: Limits): (n: nat)
    ensures n > 0 && n == if l.maxZeroes == 0 then 32768 else l.maxZeroes
  {
    if l.maxZeroes != 0 then l.maxZeroes else MAX_WRITE_ZEROES_DEFAULT
  }

  function TransferLimit(l: Limits): (n: nat)
    ensures 0 < n <= MAX_WRITE_ZEROES_DEFAULT
    ensures l.maxTransfer != 0 ==> n <= l.maxTransfer
    ensures n == MAX_WRITE_ZEROES_DEFAULT || n == l.maxTransfer
  {
    if l.maxTransfer != 0 && l.maxTransfer < MAX_WRITE_ZEROES_DEFAULT then l.maxTransfer else MAX_WRITE_ZEROES_DEFAULT
  }

  // ----- the size of a piece -----

  /** Sectors to ask for when `left` are still to be zeroed from `sector` on. */
  method PieceSize(l: Limits, sector: nat, left: nat) returns (num: nat)
    requires left > 0
    ensures 0 < num <= left && num <= ZeroesLimit(l)
    ensures WellCut(l, sector, left, num) && Cut(l, sector, left, num) == true
  {
    num := left;
    if l.alignment != 0 && num > l.alignment {
      RemainderFacts(sector, l.alignment);
      RemainderFacts(sector + num, l.alignment);
      if sector % l.alignment != 0 {
        num := l.alignment;
        num := num - sector % l.alignment;
        HeadEndsOnBoundary(sector, l.alignment);
      } else if (sector + num) % l.alignment != 0 {
        num := num - (sector + num) % l.alignment;
        TailEndsOnBoundary(sector, left, l.alignment);
      }
    }
    ghost var wanted := num;
    assert Wanted(l, sector, left, wanted);
    if num > ZeroesLimit(l) {
      num := ZeroesLimit(l);
    }
    LimitKeepsBoundary(l, sector, left, wanted);
  }

  /**
   * Without limits: up to the first boundary, if the sectors do not begin on one; else up to the last;
   * or everything, if it is no more than an alignment unit.
   */
  predicate Wanted(l: Limits, sector: nat, left: nat, num: nat)
  {
    if l.alignment == 0 || left <= l.alignment then num == left
    else
      && (sector + num) % l.alignment == 0 && 0 < num
      && if sector % l.alignment != 0 then num < l.alignment else left < num + l.alignment && num <= left
  }

  ghost predicate Cut(l: Limits, sector: nat, left: nat, num: nat)
  {
    exists wanted: nat :: Wanted(l, sector, left, wanted) && num == Bytes.Min(wanted, ZeroesLimit(l))
  }

  /**
   * While more than one alignment unit is left, a piece is a head up to the first boundary or
   * runs from boundary to boundary, provided the limit is itself a multiple of the alignment.
   */
  predicate WellCut(l: Limits, sector: nat, left: nat, num: nat)
  {
    l.alignment != 0 && left > l.alignment && ZeroesLimit(l) % l.alignment == 0 ==>
      && (sector + num) % l.alignment == 0
      && (sector % l.alignment != 0 ==> num < l.alignment)
  }

  lemma RemainderFacts(x: nat, a: nat)
    requires a > 0
    ensures x % a < a
  {
  }

  lemma HeadEndsOnBoundary(x: nat, a: nat)
    requires a > 0
    ensures (x + (a - x % a)) % a == 0
  {
    assert x + (a - x % a) == (x / a + 1) * a;
    Bytes.MultipleMod(x / a + 1, a);
  }

  lemma TailEndsOnBoundary(x: nat, n: nat, a: nat)
    requires a > 0
    ensures (x + n) % a <= x + n && (x + n - (x + n) % a) % a == 0
  {
    assert x + n - (x + n) % a == (x + n) / a * a;
    Bytes.MultipleMod((x + n) / a, a);
  }

  lemma SumOfMultiples(x: nat, y: nat, a: nat)
    requires a > 0 && x % a == 0 && y % a == 0
    ensures (x + y) % a == 0
  {
    assert x + y == (x / a + y / a) * a;
    Bytes.MultipleMod(x / a + y / a, a);
  }

  lemma MultipleAtLeast(x: nat, a: nat)
    requires a > 0 && x > 0 && x % a == 0
    ensures x >= a
  {
    if x < a {
      Bytes.DivModUnique(x, a, 0, x);
    }
  }

  lemma LimitKeepsBoundary(l: Limits, sector: nat, left: nat, wanted: nat)
    requires 0 < wanted <= left
    requires l.alignment != 0 && left > l.alignment ==>
               && (sector + wanted) % l.alignment == 0
               && (sector % l.alignment != 0 ==> wanted < l.alignment)
    ensures WellCut(l, sector, left, Bytes.Min(wanted, ZeroesLimit(l)))
  {
    var limit := ZeroesLimit(l);
    if l.alignment != 0 && left > l.alignment && limit % l.alignment == 0 && wanted > limit {
      MultipleAtLeast(limit, l.alignment);
      if sector % l.alignment == 0 {
        SumOfMultiples(sector, limit, l.alignment);
      }
    }
  }

  // ----- the driver -----

  datatype Way = Native | Bounce

  /** One call that was the last one tried for its sectors; `cut` sectors were to be zeroed at first. */
  datatype Piece = Piece(sector: nat, count: nat, left: nat, cut: nat, way: Way)

  ghost predicate PieceOk(l: Limits, p: Piece)
  {
    && 0 < p.count <= p.left
    && Cut(l, p.sector, p.left, p.cut) && p.cut <= ZeroesLimit(l)
    && (p.way == Native ==> p.count == p.cut && WellCut(l, p.sector, p.left, p.count))
    && (p.way == Bounce ==> p.count == Bytes.Min(p.cut, TransferLimit(l)))
  }

  /** The pieces follow one another without gap or overlap from `sector`, over `n` sectors. */
  predicate Partition(ps: seq<Piece>, sector: nat, n: nat)
  {
    if ps == [] then n == 0 else
      var p := ps[|ps| - 1];
      && p.count <= n && p.sector == sector + (n - p.count)
      && Partition(ps[..|ps| - 1], sector, n - p.count)
  }

  lemma PartitionNext(ps: seq<Piece>, sector: nat, n: nat, p: Piece)
    requires Partition(ps, sector, n) && p.sector == sector + n
    ensures Partition(ps + [p], sector, n + p.count)
  {
    assert (ps + [p])[..|ps|] == ps;
  }

  /** Acceptable pieces that partition `n` sectors from `sector` on. */
  ghost predicate Pieces(l: Limits, ps: seq<Piece>, sector: nat, n: nat)
  {
    Partition(ps, sector, n) && forall i :: 0 <= i < |ps| ==> PieceOk(l, ps[i])
  }

  lemma PiecesNext(l: Limits, ps: seq<Piece>, sector: nat, n: nat, p: Piece)
    requires Pieces(l, ps, sector, n) && p.sector == sector + n && PieceOk(l, p)
    ensures Pieces(l, ps + [p], sector, n + p.count) == true
  {
    PartitionNext(ps, sector, n, p);
  }

  /** Every sector of a partitioned range lies in exactly one piece. */
  lemma {:induction false} PartitionCovers(ps: seq<Piece>, sector: nat, n: nat, k: nat)
    requires Partition(ps, sector, n)
    ensures sector <= k < sector + n <==> exists i :: 0 <= i < |ps| && InPiece(ps[i], k)
    ensures forall i, j :: 0 <= i < j < |ps| && InPiece(ps[i], k) ==> !InPiece(ps[j], k)
  {
    if ps != [] {
      var p, before := ps[|ps| - 1], ps[..|ps| - 1];
      PartitionCovers(before, sector, n - p.count, k);
      if InPiece(p, k) {
        assert InPiece(ps[|ps| - 1], k);
        assert !(sector <= k < sector + (n - p.count));
      }
      forall i, j | 0 <= i < j < |ps| && InPiece(ps[i], k)
        ensures !InPiece(ps[j], k)
      {
        assert before[i] == ps[i];
        if j < |before| {
          assert before[j] == ps[j];
        }
      }
    }
  }

  predicate InPiece(p: Piece, k: nat)
  {
    p.sector <= k < p.sector + p.count
  }

  class Device {
    const limits: Limits
    /** Whether the driver has a write-zeroes operation of its own. */
    const native: bool
    /** What the driver's own operation and its writes return, by sector and count; memory for so many sectors. */
    const zeroReturns: (nat, nat) -> int
    const writeReturns: (nat, nat) -> int
    const granted: nat -> bool
    var sectors: seq<int>
    /** The calls that decided each piece, oldest first. */
    var pieces: seq<Piece>

    constructor (limits: Limits, native: bool, zeroReturns: (nat, nat) -> int, writeReturns: (nat, nat) -> int,
                 granted: nat -> bool, sectors: seq<int>)
      ensures this.limits == limits && this.native == native && this.sectors == sectors && pieces == []
      ensures this.zeroReturns == zeroReturns && this.writeReturns == writeReturns && this.granted == granted
    {
      this.zeroReturns, this.writeReturns, this.granted := zeroReturns, writeReturns, granted;
      this.limits, this.native, this.sectors, pieces := limits, native, sectors, [];
    }

    /** A call that succeeds, leaves things alone, or fails having written anything to its range. */
    method Attempt(sector: nat, num: nat, ret: int)
      requires sector + num <= |sectors|
      modifies `sectors
      ensures |sectors| == |old(sectors)|
      ensures forall k :: 0 <= k < |sectors| && !(sector <= k < sector + num) ==> sectors[k] == old(sectors)[k]
      ensures ret == 0 ==> forall k :: sector <= k < sector + num ==> sectors[k] == 0
      ensures ret == -ENOTSUP ==> sectors == old(sectors)
    {
      if ret == 0 {
        sectors := sectors[..sector] + seq(num, _ => 0) + sectors[sector + num..];
      } else if ret != -ENOTSUP {
        assert |seq(num, _ => 1)| == num;
        var any: seq<int> :| |any| == num;
        sectors := sectors[..sector] + any + sectors[sector + num..];
      }
    }

    /** What the call for a piece returns. */
    function Result(p: Piece): int
    {
      if p.way == Native then zeroReturns(p.sector, p.count) else writeReturns(p.sector, p.count)
    }

    /** The bounce buffer is used only where the driver cannot zero by itself. */
    predicate WayOk(p: Piece)
    {
      if p.way == Native then native && zeroReturns(p.sector, p.cut) != -ENOTSUP
      else !native || zeroReturns(p.sector, p.cut) == -ENOTSUP
    }

    /** Only sectors `from` to `to` may differ from `was`. */
    predicate Outside(was: seq<int>, from: nat, to: nat)
      reads this
    {
      |sectors| == |was| && forall k :: 0 <= k < |was| && !(from <= k < to) ==> sectors[k] == was[k]
    }

    predicate Zeroed(from: nat, to: nat)
      reads this
    {
      to <= |sectors| && forall k :: from <= k < to ==> sectors[k] == 0
    }

    /**
     * One round: the driver's own operation if it has one, else zeroes from a bounce buffer of
     * `buffer` sectors, which is allocated when there is none and kept if it has full size.
     */
    method Round(at: nat, left: nat, buffer: nat) returns (ret: int, piece: Bytes.Option<Piece>, kept: nat)
      requires left > 0 && at + left <= |sectors| && (buffer == 0 || buffer == TransferLimit(limits))
      modifies `sectors
      ensures Outside(old(sectors), at, at + left)
      ensures kept == 0 || kept == TransferLimit(limits)
      ensures piece.None? ==> ret == -ENOMEM && sectors == old(sectors) && Refused() && buffer == 0
      ensures piece.Some? ==>
                && PieceOk(limits, piece.value) && piece.value.sector == at && piece.value.left == left
                && WayOk(piece.value) && ret == Result(piece.value)
                && Outside(old(sectors), at, at + piece.value.count)
                && (ret == 0 ==> Zeroed(at, at + piece.value.count))
    {
      kept := buffer;
      var cut := PieceSize(limits, at, left);
      ret := -ENOTSUP;
      if native {
        ret := zeroReturns(at, cut);
        Attempt(at, cut, ret);
      }
      if ret != -ENOTSUP {
        return ret, Bytes.Some(Piece(at, cut, left, cut, Native)), kept;
      }
      var limit := TransferLimit(limits);
      var num := Bytes.Min(cut, limit);
      if kept == 0 {
        if !granted(num) {
          return -ENOMEM, Bytes.None, kept;
        }
        kept := num;
      }
      assert kept >= num;
      ret := writeReturns(at, num);
      Attempt(at, num, ret);
      if num < limit {
        kept := 0;
      }
      piece := Bytes.Some(Piece(at, num, left, cut, Bounce));
    }

    /** Memory for a bounce buffer has been refused. */
    ghost predicate Refused()
    {
      exists k :: 0 < k <= TransferLimit(limits) && !granted(k)
    }

    /** The calls were made as they had to be; all but the last succeeded, and the last gave `ret`. */
    ghost predicate Returned(ps: seq<Piece>, ret: int)
    {
      && (forall i :: 0 <= i < |ps| ==> WayOk(ps[i]))
      && (forall i :: 0 <= i < |ps| - 1 ==> Result(ps[i]) == 0)
      && (if ps == [] then ret == 0 else ret == Result(ps[|ps| - 1]))
    }

    lemma ReturnedMore(ps: seq<Piece>, p: Piece)
      requires Returned(ps, 0) && WayOk(p)
      ensures Returned(ps + [p], Result(p)) == true
    {
    }

    /**
     * Zeroes `count` sectors from `sector`. On success exactly these are zero, and the pieces
     * the driver was given partition them; whatever happens, no other sector changes.
     */
    method WriteZeroes(sector: nat, count: nat) returns (ret: int, ghost mine: seq<Piece>, ghost n: nat)
      requires sector + count <= |sectors|
      modifies this
      ensures Outside(old(sectors), sector, sector + count)
      ensures ret == 0 ==> Zeroed(sector, sector + count)
      ensures pieces == old(pieces) + mine && Pieces(limits, mine, sector, n) == true
      ensures n <= count && (ret == 0 ==> n == count)
      ensures Returned(mine, ret) == true || (Returned(mine, 0) == true && ret == -ENOMEM && Refused())
    {
      mine := [];
      var at, left, buffer := sector, count, 0;
      ret := 0;
      while left > 0 && ret == 0
        invariant at + left == sector + count && sector <= at && 0 <= left
        invariant pieces == old(pieces) + mine
        invariant Pieces(limits, mine, sector, at - sector) == true
        invariant Outside(old(sectors), sector, sector + count) == true
        invariant ret == 0 ==> Zeroed(sector, at) == true
        invariant Returned(mine, ret) == true
        invariant buffer == 0 || buffer == TransferLimit(limits)
        decreases left, ret == 0
      {
        var piece;
        ret, piece, buffer := Round(at, left, buffer);
        if piece.None? {
          break;
        }
        ReturnedMore(mine, piece.value);
        PiecesNext(limits, mine, sector, at - sector, piece.value);
        pieces, mine := pieces + [piece.value], mine + [piece.value];
        at, left := at + piece.value.count, left - piece.value.count;
      }
      n := at - sector;
    }
  }
}
