/** Reading compressed disk images in chunks: finding the chunk of a sector, and caching one chunk. */
module DmgImage {
  import opened Bytes

  datatype Coding = Zlib | Copy | Zero

  /** `count` sectors from `sector` on, stored in `length` bytes of the file at `offset`. */
  datatype Chunk = Chunk(coding: Coding, offset: nat, length: nat, sector: nat, count: nat)

  predicate InChunk(chunks: seq<Chunk>, k: nat, sector: nat)
  {
    k < |chunks| && chunks[k].sector <= sector < chunks[k].sector + chunks[k].count
  }

  /** Chunks in the order of their sectors, none running into the next. */
  ghost predicate Ordered(chunks: seq<Chunk>)
  {
    forall i, j :: 0 <= i < j < |chunks| ==> chunks[i].sector + chunks[i].count <= chunks[j].sector
  }

  // ----- the search, step by step -----

  datatype Search = Between(low: nat, high: nat) | Answer(chunk: nat)

  predicate Proper(chunks: seq<Chunk>, s: Search)
  {
    s.Between? ==> s.low <= s.high <= |chunks|
  }

  /** One round of the search loop; the number of chunks stands for "not found". */
  function Round(chunks: seq<Chunk>, sector: nat, s: Search): (t: Search)
    requires Proper(chunks, s)
    ensures Proper(chunks, t)
  {
    if s.Answer? then s
    else if s.low == s.high then Answer(|chunks|)
    else
      var middle := (s.low + s.high) / 2;
      if chunks[middle].sector > sector then Between(s.low, middle)
      else if chunks[middle].sector + chunks[middle].count > sector then Answer(middle)
      else Between(middle, s.high)
  }

  function Rounds(chunks: seq<Chunk>, sector: nat, n: nat): (s: Search)
    ensures Proper(chunks, s)
  {
    if n == 0 then Between(0, |chunks|) else Round(chunks, sector, Rounds(chunks, sector, n - 1))
  }

  ghost predicate Ends(chunks: seq<Chunk>, sector: nat)
  {
    exists n: nat :: Rounds(chunks, sector, n).Answer?
  }

  /** The sector lies in a chunk, or before all of them. */
  ghost predicate Findable(chunks: seq<Chunk>, sector: nat)
  {
    chunks == [] || sector < chunks[0].sector || exists k: nat :: InChunk(chunks, k, sector)
  }

  /** What the search keeps: the chunk looked for, if there is one, is still in range. */
  ghost predicate Narrowed(chunks: seq<Chunk>, sector: nat, low: nat, high: nat)
  {
    && low <= high <= |chunks|
    && (forall k: nat :: InChunk(chunks, k, sector) ==> low <= k < high && (low > 0 ==> low < k))
    && (chunks != [] && sector < chunks[0].sector ==> low == 0)
  }

  /** The search is at `s` after `n` rounds. */
  predicate Reached(chunks: seq<Chunk>, sector: nat, n: nat, s: Search)
  {
    Rounds(chunks, sector, n) == s
  }

  lemma NextRound(chunks: seq<Chunk>, sector: nat, n: nat, low: nat, high: nat)
    requires low <= high <= |chunks| && Reached(chunks, sector, n, Between(low, high)) == true
    ensures low == high ==> Reached(chunks, sector, n + 1, Answer(|chunks|)) == true
    ensures var middle := (low + high) / 2;
            low < high ==>
              if chunks[middle].sector > sector then Reached(chunks, sector, n + 1, Between(low, middle)) == true
              else if chunks[middle].sector + chunks[middle].count > sector then Reached(chunks, sector, n + 1, Answer(middle)) == true
              else Reached(chunks, sector, n + 1, Between(middle, high)) == true
  {
    assert Rounds(chunks, sector, n + 1) == Round(chunks, sector, Rounds(chunks, sector, n));
  }

  lemma MiddleStep(chunks: seq<Chunk>, sector: nat, low: nat, high: nat)
    requires Ordered(chunks) == true && Findable(chunks, sector) == true && Narrowed(chunks, sector, low, high) == true && low < high <= |chunks|
    ensures var middle := (low + high) / 2;
            && (chunks[middle].sector > sector ==> Narrowed(chunks, sector, low, middle) == true)
            && (chunks[middle].sector <= sector && !InChunk(chunks, middle, sector) ==>
                  low < middle && Narrowed(chunks, sector, middle, high) == true)
  {
    var middle := (low + high) / 2;
    assert Ordered(chunks) && Findable(chunks, sector) && Narrowed(chunks, sector, low, high);
    if chunks[middle].sector <= sector && !InChunk(chunks, middle, sector) {
      assert chunks[0].sector <= chunks[middle].sector;
      var k: nat :| InChunk(chunks, k, sector);
      assert k > middle;
    }
  }

  lemma AllInRange(chunks: seq<Chunk>, sector: nat)
    ensures Narrowed(chunks, sector, 0, |chunks|) == true
  {
  }

  ghost predicate IsTheChunk(chunks: seq<Chunk>, sector: nat, chunk: nat)
  {
    && chunk <= |chunks|
    && (chunk < |chunks| ==> InChunk(chunks, chunk, sector))
    && forall k: nat :: InChunk(chunks, k, sector) ==> chunk == k
  }

  lemma HitIsTheChunk(chunks: seq<Chunk>, sector: nat, k: nat)
    requires Ordered(chunks) == true && InChunk(chunks, k, sector)
    ensures IsTheChunk(chunks, sector, k) == true
  {
    assert Ordered(chunks);
  }

  lemma NothingLeft(chunks: seq<Chunk>, sector: nat, low: nat)
    requires Narrowed(chunks, sector, low, low) == true
    ensures IsTheChunk(chunks, sector, |chunks|) == true
  {
    assert Narrowed(chunks, sector, low, low);
  }

  /** The search finds the only chunk that holds the sector, or that no chunk does. */
  method SearchChunk(chunks: seq<Chunk>, sector: nat) returns (chunk: nat, ghost n: nat)
    requires Ordered(chunks) == true && Findable(chunks, sector) == true
    ensures IsTheChunk(chunks, sector, chunk) == true
    ensures Reached(chunks, sector, n, Answer(chunk)) == true
  {
    var chunk1: nat, chunk2: nat := 0, |chunks|;
    n := 0;
    AllInRange(chunks, sector);
    assert Reached(chunks, sector, 0, Between(0, |chunks|));
    while chunk1 != chunk2
      invariant chunk1 <= chunk2 <= |chunks| && Narrowed(chunks, sector, chunk1, chunk2) == true
      invariant Reached(chunks, sector, n, Between(chunk1, chunk2)) == true
      decreases chunk2 - chunk1
    {
      MiddleStep(chunks, sector, chunk1, chunk2);
      NextRound(chunks, sector, n, chunk1, chunk2);
      var chunk3 := (chunk1 + chunk2) / 2;
      n := n + 1;
      if chunks[chunk3].sector > sector {
        chunk2 := chunk3;
      } else if chunks[chunk3].sector + chunks[chunk3].count > sector {
        HitIsTheChunk(chunks, sector, chunk3);
        return chunk3, n;
      } else {
        chunk1 := chunk3;
      }
    }
    NextRound(chunks, sector, n, chunk1, chunk2);
    NothingLeft(chunks, sector, chunk1);
    return |chunks|, n + 1;
  }

  /** The bounds lie on both sides of the start of `last`, the last chunk at or before the sector. */
  ghost predicate Stuck(chunks: seq<Chunk>, sector: nat, last: nat, s: Search)
  {
    && last < |chunks| && chunks[last].sector <= sector && (last + 1 < |chunks| ==> sector < chunks[last + 1].sector)
    && s.Between? && s.low <= last < s.high <= |chunks|
  }

  lemma RoundStaysStuck(chunks: seq<Chunk>, sector: nat, last: nat, s: Search)
    requires Ordered(chunks) && !Findable(chunks, sector) && Stuck(chunks, sector, last, s)
    ensures Stuck(chunks, sector, last, Round(chunks, sector, s)) == true
  {
    var middle := (s.low + s.high) / 2;
    assert !InChunk(chunks, middle, sector);
    if middle > last {
      assert chunks[last + 1].sector <= chunks[middle].sector;
    } else {
      assert chunks[middle].sector <= chunks[last].sector;
    }
  }

  lemma {:induction false} NeverEnds(chunks: seq<Chunk>, sector: nat, last: nat, n: nat)
    requires Ordered(chunks) && !Findable(chunks, sector) && Stuck(chunks, sector, last, Between(0, |chunks|))
    ensures Stuck(chunks, sector, last, Rounds(chunks, sector, n)) == true
  {
    if n > 0 {
      NeverEnds(chunks, sector, last, n - 1);
      RoundStaysStuck(chunks, sector, last, Rounds(chunks, sector, n - 1));
    }
  }

  lemma {:induction false} LastAtOrBefore(chunks: seq<Chunk>, sector: nat, n: nat) returns (last: nat)
    requires 0 < n <= |chunks| && Ordered(chunks) && chunks[0].sector <= sector
    ensures last < n && chunks[last].sector <= sector && (last + 1 < n ==> sector < chunks[last + 1].sector)
  {
    if n == 1 || chunks[n - 1].sector <= sector {
      last := n - 1;
    } else {
      last := LastAtOrBefore(chunks, sector, n - 1);
    }
  }

  /**
   * The search ends exactly for sectors of a chunk and for those before the first: for one past the
   * end, or in a gap, the two bounds stop moving while they are still apart.
   */
  lemma SearchEndsIff(chunks: seq<Chunk>, sector: nat)
    requires Ordered(chunks)
    ensures Ends(chunks, sector) <==> Findable(chunks, sector)
  {
    if Findable(chunks, sector) {
      AllInRange(chunks, sector);
      assert Reached(chunks, sector, 0, Between(0, |chunks|));
      EndsWhenFindable(chunks, sector, 0, 0, |chunks|);
    } else {
      var last := LastAtOrBefore(chunks, sector, |chunks|);
      forall n: nat
        ensures !Rounds(chunks, sector, n).Answer?
      {
        NeverEnds(chunks, sector, last, n);
      }
    }
  }

  lemma {:induction false} EndsWhenFindable(chunks: seq<Chunk>, sector: nat, n: nat, low: nat, high: nat)
    requires Ordered(chunks) == true && Findable(chunks, sector) == true && low <= high <= |chunks|
    requires Narrowed(chunks, sector, low, high) == true && Reached(chunks, sector, n, Between(low, high)) == true
    ensures Ends(chunks, sector) == true
    decreases high - low
  {
    NextRound(chunks, sector, n, low, high);
    if low == high {
      EndsAt(chunks, sector, n + 1, |chunks|);
    } else {
      MiddleStep(chunks, sector, low, high);
      var middle := (low + high) / 2;
      if chunks[middle].sector > sector {
        EndsWhenFindable(chunks, sector, n + 1, low, middle);
      } else if chunks[middle].sector + chunks[middle].count > sector {
        EndsAt(chunks, sector, n + 1, middle);
      } else {
        EndsWhenFindable(chunks, sector, n + 1, middle, high);
      }
    }
  }

  lemma EndsAt(chunks: seq<Chunk>, sector: nat, n: nat, k: nat)
    requires Reached(chunks, sector, n, Answer(k))
    ensures Ends(chunks, sector) == true
  {
  }

  /** One chunk of sixteen sectors: sector 16 is never given up on. */
  lemma {:induction false} PastTheEndNeverEnds(n: nat)
    ensures var chunks := [Chunk(Zero, 0, 0, 0, 16)]; Rounds(chunks, 16, n) == Between(0, 1)
  {
    var chunks := [Chunk(Zero, 0, 0, 0, 16)];
    if n > 0 {
      PastTheEndNeverEnds(n - 1);
    }
  }

  // ----- the chunk buffer -----

  /** The image file, and how its compressed chunks inflate. */
  datatype SourceOf<F> = Source(file: F, inflate: seq<byte> -> Option<seq<byte>>)

  type Source = SourceOf<seq<byte>>

  /** The bytes a chunk puts at the start of the buffer; None when it cannot be decoded. */
  function Contents(src: Source, c: Chunk): (d: Option<seq<byte>>)
    ensures d.Some? && c.coding != Copy ==> |d.value| == SECTOR * c.count
    ensures d.Some? && c.coding == Copy ==> |d.value| == c.length
  {
    match c.coding
    case Zero => Some(Zeros(SECTOR * c.count))
    case Copy => if c.offset + c.length <= |src.file| then Some(src.file[c.offset..c.offset + c.length]) else None
    case Zlib =>
      if c.offset + c.length > |src.file| then None
      else
        var d := src.inflate(src.file[c.offset..c.offset + c.length]);
        if d.Some? && |d.value| == SECTOR * c.count then d else None
  }

  /** The buffer after a chunk has been decoded into it. */
  function Loaded(buffer: seq<byte>, d: seq<byte>): (r: seq<byte>)
    requires |d| <= |buffer|
    ensures |r| == |buffer|
  {
    d + buffer[|d|..]
  }

  /** The chunk stores all its sectors. Only a copied chunk can fail to. */
  predicate Whole(c: Chunk)
  {
    c.coding == Copy ==> SECTOR * c.count <= c.length
  }

  /**
   * The sectors of a chunk lie in the buffer, and what they read as does not depend on what was in it
   * before, exactly when the chunk stores all its sectors.
   */
  lemma BufferShowsIff(src: Source, c: Chunk, n: nat)
    requires Contents(src, c).Some? && |Contents(src, c).value| <= n
    ensures Whole(c)
            <==> SECTOR * c.count <= n
                 && forall b: seq<byte>, b': seq<byte> :: |b| == n && |b'| == n ==>
                   Loaded(b, Contents(src, c).value)[..SECTOR * c.count]
                   == Loaded(b', Contents(src, c).value)[..SECTOR * c.count]
  {
    var d, m := Contents(src, c).value, SECTOR * c.count;
    if Whole(c) {
      forall b: seq<byte>, b': seq<byte> | |b| == n && |b'| == n
        ensures Loaded(b, d)[..m] == Loaded(b', d)[..m]
      {
        assert Loaded(b, d)[..m] == d[..m] == Loaded(b', d)[..m];
      }
    } else if m <= n {
      var b: seq<byte>, b': seq<byte> := Zeros(n), seq(n, _ => 1);
      assert Loaded(b, d)[..m][|d|] == 0 && Loaded(b', d)[..m][|d|] == 1;
    }
  }

  /** How much of the buffer is kept for a chunk, in sectors: for a copied chunk that goes by its length. */
  function Room(c: Chunk): (n: nat)
    ensures c.coding != Copy ==> n == c.count
    ensures c.coding == Copy ==> c.length <= SECTOR * n < c.length + SECTOR
  {
    if c.coding == Copy then (c.length + 511) / 512 else c.count
  }

  /** The sectors of the buffer: the room for the biggest chunk, and one at least. */
  function BufferSectors(chunks: seq<Chunk>): (n: nat)
    ensures n >= 1 && forall k :: 0 <= k < |chunks| ==> Room(chunks[k]) <= n
    ensures n == 1 || exists k :: 0 <= k < |chunks| && Room(chunks[k]) == n
  {
    if chunks == [] then 1
    else
      var last := |chunks| - 1;
      Max(BufferSectors(chunks[..last]), Room(chunks[last]))
  }

  lemma BufferSectorsNext(chunks: seq<Chunk>, i: nat)
    requires i < |chunks|
    ensures BufferSectors(chunks[..i + 1]) == Max(BufferSectors(chunks[..i]), Room(chunks[i]))
  {
    assert chunks[..i + 1][..i] == chunks[..i];
  }

  /** Copying sector `s` of a chunk to the guest stays inside the buffer. */
  predicate InsideBuffer(chunks: seq<Chunk>, k: nat, s: nat)
    requires InChunk(chunks, k, s)
  {
    SECTOR * (s - chunks[k].sector) + SECTOR <= SECTOR * BufferSectors(chunks)
  }

  /** No read goes past the end of the buffer exactly when no copied chunk has more sectors than the buffer. */
  lemma InsideBufferIff(chunks: seq<Chunk>)
    ensures (forall k: nat, s: nat :: InChunk(chunks, k, s) ==> InsideBuffer(chunks, k, s))
            <==> forall k :: 0 <= k < |chunks| && chunks[k].coding == Copy ==> chunks[k].count <= BufferSectors(chunks)
  {
    if forall k: nat, s: nat :: InChunk(chunks, k, s) ==> InsideBuffer(chunks, k, s) {
      forall k | 0 <= k < |chunks| && chunks[k].coding == Copy
        ensures chunks[k].count <= BufferSectors(chunks)
      {
        if chunks[k].count > 0 {
          assert InChunk(chunks, k, chunks[k].sector + chunks[k].count - 1);
          assert InsideBuffer(chunks, k, chunks[k].sector + chunks[k].count - 1);
        }
      }
    } else {
      var k: nat, s: nat :| InChunk(chunks, k, s) && !InsideBuffer(chunks, k, s);
      assert Room(chunks[k]) <= BufferSectors(chunks);
    }
  }

  /** Two sectors stored in 512 bytes: reading the second one goes past the end of the buffer. */
  lemma ReadPastBuffer()
    ensures var chunks := [Chunk(Copy, 0, 512, 0, 2)]; InChunk(chunks, 0, 1) && !InsideBuffer(chunks, 0, 1)
  {
    var chunks := [Chunk(Copy, 0, 512, 0, 2)];
    assert chunks[..0] == [];
    assert Room(chunks[0]) == 1 && BufferSectors([]) == 1;
  }

  class Dmg {
    const chunks: seq<Chunk>
    const src: Source
    /** Whether the host's reads fail only where the file ends. */
    const reliable: bool
    var currentChunk: nat
    var buffer: seq<byte>

    /** A valid chunk number means that the buffer holds that chunk. */
    predicate Valid()
      reads this
    {
      && |buffer| == SECTOR * BufferSectors(chunks)
      && (currentChunk < |chunks| ==> Holds(currentChunk))
    }

    predicate Holds(k: nat)
      requires k < |chunks|
      reads this
    {
      var d := Contents(src, chunks[k]); d.Some? && d.value <= buffer
    }

    /** The buffer is made big enough for every chunk. */
    constructor (chunks: seq<Chunk>, src: Source, reliable: bool)
      ensures Valid() && currentChunk == |chunks| && buffer == Zeros(SECTOR * BufferSectors(chunks))
      ensures this.chunks == chunks && this.src == src && this.reliable == reliable
    {
      this.chunks, this.src, this.reliable, currentChunk := chunks, src, reliable, |chunks|;
      var most := 1;
      var i := 0;
      while i < |chunks|
        invariant 0 <= i <= |chunks| && most == BufferSectors(chunks[..i])
      {
        BufferSectorsNext(chunks, i);
        if Room(chunks[i]) > most {
          most := Room(chunks[i]);
        }
        i := i + 1;
      }
      assert chunks[..i] == chunks;
      buffer := Zeros(SECTOR * most);
    }

    lemma FitsBuffer(k: nat)
      requires Valid() && k < |chunks| && Contents(src, chunks[k]).Some?
      ensures |Contents(src, chunks[k]).value| <= |buffer|
    {
      assert Room(chunks[k]) <= BufferSectors(chunks);
    }

    method HostRead(offset: nat, n: nat) returns (ok: bool, data: seq<byte>)
      ensures ok ==> offset + n <= |src.file| && data == src.file[offset..offset + n]
      ensures reliable && offset + n <= |src.file| ==> ok
    {
      ok, data := *, [];
      if offset + n > |src.file| {
        ok := false;
      } else {
        ok := ok || reliable;
        if ok {
          data := src.file[offset..offset + n];
        }
      }
    }

    /** Decodes one chunk into the buffer; when that fails the buffer is not used again. */
    method Decode(k: nat) returns (ok: bool)
      requires Valid() && k < |chunks| && currentChunk == |chunks|
      modifies `buffer
      ensures Valid() && currentChunk == |chunks|
      ensures ok ==> Holds(k) && Fills(old(buffer), buffer, k)
      ensures reliable ==> (ok <==> Contents(src, chunks[k]).Some?)
    {
      var c := chunks[k];
      if Contents(src, c).Some? {
        FitsBuffer(k);
      }
      match c.coding
      case Zlib =>
        var data;
        ok, data := HostRead(c.offset, c.length);
        if !ok { return; }
        var d := src.inflate(data);
        ok := d.Some? && |d.value| == SECTOR * c.count;
        if ok {
          buffer := Loaded(buffer, d.value);
        } else {
          var junk: seq<byte> := *;
          if |junk| == |buffer| {
            buffer := junk;
          }
        }
      case Copy =>
        var data;
        ok, data := HostRead(c.offset, c.length);
        if ok {
          buffer := Loaded(buffer, data);
        }
      case Zero =>
        buffer := Loaded(buffer, Zeros(SECTOR * c.count));
        ok := true;
    }

    /** The contents of chunk `k` replace the beginning of the buffer, and no more. */
    ghost predicate Fills(was: seq<byte>, now: seq<byte>, k: nat)
      requires k < |chunks|
    {
      var d := Contents(src, chunks[k]);
      d.Some? && |d.value| <= |was| && now == Loaded(was, d.value)
    }

    /** The sector lies in a chunk that can be decoded. */
    ghost predicate Readable(s: nat)
    {
      exists k: nat :: InChunk(chunks, k, s) && Contents(src, chunks[k]).Some?
    }

    /** Makes the chunk of a sector the current one. */
    method ReadChunk(sector: nat) returns (ok: bool)
      requires Valid() && Ordered(chunks) && Findable(chunks, sector)
      modifies this
      ensures Valid()
      ensures ok ==> InChunk(chunks, currentChunk, sector)
      ensures old(InChunk(chunks, currentChunk, sector)) ==> ok && buffer == old(buffer) && currentChunk == old(currentChunk)
      ensures ok && !old(InChunk(chunks, currentChunk, sector)) ==> Fills(old(buffer), buffer, currentChunk)
      ensures reliable ==> (ok <==> Readable(sector))
    {
      if InChunk(chunks, currentChunk, sector) {
        return true;
      }
      var chunk, _ := SearchChunk(chunks, sector);
      if chunk >= |chunks| {
        return false;
      }
      currentChunk := |chunks|;
      ok := Decode(chunk);
      if ok {
        currentChunk := chunk;
      }
    }

    /** Sector `s` as the chunk that holds it says, whatever is cached. */
    ghost predicate SectorIs(s: nat, data: seq<byte>)
    {
      exists k: nat :: InChunk(chunks, k, s) && Contents(src, chunks[k]).Some?
        && var at, d := SECTOR * (s - chunks[k].sector), Contents(src, chunks[k]).value;
           && (Whole(chunks[k]) ==> at + SECTOR <= |d|)
           && (at + SECTOR <= |d| ==> data == d[at..at + SECTOR])
    }

    ghost predicate SectorsAre(sector: nat, data: seq<seq<byte>>)
    {
      forall i :: 0 <= i < |data| ==> SectorIs(sector + i, data[i])
    }

    lemma OneMoreSector(sector: nat, data: seq<seq<byte>>, piece: seq<byte>)
      requires SectorsAre(sector, data) && SectorIs(sector + |data|, piece)
      ensures SectorsAre(sector, data + [piece]) == true
    {
    }

    ghost predicate AllFindable(sector: nat, n: nat)
    {
      forall s :: sector <= s < sector + n ==> Findable(chunks, s)
    }

    ghost predicate AllReadable(sector: nat, n: nat)
    {
      forall s :: sector <= s < sector + n ==> Readable(s)
    }

    /**
     * Reads sectors. Whatever was read before and whatever failed, each sector of a chunk that stores
     * all of its sectors is what decoding that chunk gives.
     */
    method Read(sector: nat, n: nat) returns (ok: bool, data: seq<seq<byte>>)
      requires Valid() && Ordered(chunks) && AllFindable(sector, n)
      modifies this
      ensures Valid()
      ensures ok ==> |data| == n && SectorsAre(sector, data) == true
      ensures reliable ==> (ok <==> AllReadable(sector, n))
    {
      data := [];
      var i := 0;
      while i < n
        invariant 0 <= i <= n && Valid() && |data| == i && SectorsAre(sector, data) == true
        invariant reliable ==> AllReadable(sector, i)
      {
        ok := ReadChunk(sector + i);
        if !ok {
          return;
        }
        var piece := CopySector(sector + i);
        OneMoreSector(sector, data, piece);
        data := data + [piece];
        i := i + 1;
      }
      ok := true;
    }

    /** The bytes of a sector in the buffer; past its end there is nothing to rely on. */
    method CopySector(s: nat) returns (piece: seq<byte>)
      requires Valid() && InChunk(chunks, currentChunk, s)
      ensures SectorIs(s, piece)
      ensures InsideBuffer(chunks, currentChunk, s) ==>
                var at := SECTOR * (s - chunks[currentChunk].sector); piece == buffer[at..at + SECTOR]
    {
      var at := SECTOR * (s - chunks[currentChunk].sector);
      if at + SECTOR <= |buffer| {
        piece := buffer[at..at + SECTOR];
      } else {
        piece := *;
      }
      assert Holds(currentChunk);
      WholeReaches(chunks[currentChunk], s);
    }

    lemma WholeReaches(c: Chunk, s: nat)
      requires c.sector <= s < c.sector + c.count && Contents(src, c).Some?
      ensures Whole(c) ==> SECTOR * (s - c.sector) + SECTOR <= |Contents(src, c).value|
    {
    }
  }

  /**
   * Sector 1 is in a chunk of two sectors that stores one, and is read before and after the other
   * chunk: zeroes that nobody stored, and then the ones of the other chunk.
   */
  method ReadStaleSector() returns (first: seq<byte>, second: seq<byte>)
    ensures |first| == |second| == SECTOR && first[0] == 0 && second[0] == 1
  {
    var ones: seq<byte> := seq(1024, _ => 1);
    var chunks := [Chunk(Copy, 0, 512, 0, 2), Chunk(Copy, 0, 1024, 2, 2)];
    var dmg := new Dmg(chunks, Source(ones, z => None), true);
    TwoCopies(chunks, dmg.src, ones);
    var ok := ReadSector(dmg, 0, 1);
    ghost var b1 := dmg.buffer;
    first := dmg.CopySector(1);
    ok := ReadSector(dmg, 1, 3);
    ghost var b2 := dmg.buffer;
    ok := ReadSector(dmg, 0, 1);
    second := dmg.CopySector(1);
    StaleBytes(Zeros(1024), b1, b2, dmg.buffer, ones);
  }

  /** Reads the chunk of a sector that is not in the current one. */
  method ReadSector(dmg: Dmg, k: nat, s: nat) returns (ok: bool)
    requires dmg.Valid() == true && Ordered(dmg.chunks) && InChunk(dmg.chunks, k, s) && dmg.reliable
    requires Contents(dmg.src, dmg.chunks[k]).Some? && !InChunk(dmg.chunks, dmg.currentChunk, s)
    requires forall j: nat :: InChunk(dmg.chunks, j, s) ==> j == k
    modifies dmg
    ensures dmg.Valid() == true && ok && dmg.currentChunk == k
    ensures |Contents(dmg.src, dmg.chunks[k]).value| <= |old(dmg.buffer)|
    ensures dmg.buffer == Loaded(old(dmg.buffer), Contents(dmg.src, dmg.chunks[k]).value)
  {
    assert dmg.Readable(s);
    ok := dmg.ReadChunk(s);
  }

  lemma StaleBytes(b0: seq<byte>, b1: seq<byte>, b2: seq<byte>, b3: seq<byte>, ones: seq<byte>)
    requires b0 == Zeros(1024) && |ones| == 1024 && forall k :: 0 <= k < 1024 ==> ones[k] == 1
    requires b1 == Loaded(b0, ones[0..512]) && b2 == Loaded(b1, ones[0..1024]) && b3 == Loaded(b2, ones[0..512])
    ensures b1[512..1024][0] == 0 && b3[512..1024][0] == 1
  {
    assert b2 == ones;
  }

  lemma TwoCopies(chunks: seq<Chunk>, src: Source, ones: seq<byte>)
    requires chunks == [Chunk(Copy, 0, 512, 0, 2), Chunk(Copy, 0, 1024, 2, 2)] && src.file == ones
    requires |ones| == 1024 && forall k :: 0 <= k < 1024 ==> ones[k] == 1
    ensures Ordered(chunks) && BufferSectors(chunks) == 2
    ensures Contents(src, chunks[0]) == Some(ones[0..512]) && Contents(src, chunks[1]) == Some(ones[0..1024])
    ensures forall k: nat :: (InChunk(chunks, k, 1) <==> k == 0) && (InChunk(chunks, k, 3) <==> k == 1)
    ensures InsideBuffer(chunks, 0, 1)
  {
    assert chunks[..1] == [chunks[0]] && chunks[..1][..0] == [];
    assert BufferSectors(chunks[..1]) == Max(BufferSectors([]), Room(chunks[0]));
    assert Room(chunks[0]) == 1 && Room(chunks[1]) == 2;
  }
}
